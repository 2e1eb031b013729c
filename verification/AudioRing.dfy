/**
 The sound driver: samples move from a ring shared with the writer into thirty-
 two buffers that the card plays from its current index (CIV) to the last valid
 one (LVI), where it halts. Writer, card and driver take turns in any order; the
 driver reads the card's status and acts on it in one turn.
 */
module AudioRing {

  const BUFFERS := 32
  const SIZE := 2048
  const PREFILL := 4
  const RING := 32768

  type Sample = int

  // The registers: current and last valid index, and whether the engine has halted.
  datatype Card = Card(civ: nat, lvi: nat, halted: bool)

  // `played` and `supplied` are histories since the last stop.
  datatype State = State(
    card: Card, running: bool, queued: nat, head: nat, fill: nat,
    audio: seq<seq<Sample>>, sizes: seq<nat>,
    ring: seq<Sample>, front: nat, tail: nat,
    played: seq<Sample>, supplied: seq<Sample>)

  datatype Action = Write(sample: Sample) | Play | Pump | Flush | Stop

  // ---- the ring ----

  function Used(front: nat, tail: nat): nat
    requires front < RING && tail < RING
  {
    (front + RING - tail) % RING
  }

  function At(tail: nat, i: nat): (k: nat)
    ensures k < RING
  {
    (tail + i) % RING
  }

  /** What the writer has left in the ring. */
  function Waiting(ring: seq<Sample>, front: nat, tail: nat): (r: seq<Sample>)
    requires |ring| == RING && front < RING && tail < RING
    ensures |r| == Used(front, tail)
  {
    seq(Used(front, tail), i requires 0 <= i < Used(front, tail) => ring[At(tail, i)])
  }

  // ---- the buffers ----

  /** An index that may have passed the last buffer, brought back: the remainder by 32. */
  function Around(x: nat): (r: nat)
    requires x < 2 * BUFFERS
    ensures r == x % BUFFERS
  {
    if x < BUFFERS then x else x - BUFFERS
  }

  /** How many buffers the driver takes the card to be busy with. */
  function InFlight(c: Card): nat
    requires c.civ < BUFFERS && c.lvi < BUFFERS
  {
    if c.halted then 0 else Around(c.lvi + BUFFERS - c.civ) + 1
  }

  function Free(c: Card): nat
    requires c.civ < BUFFERS && c.lvi < BUFFERS
  {
    if InFlight(c) + 1 >= BUFFERS then 0 else BUFFERS - 1 - InFlight(c)
  }

  /** How many buffers have been handed over and not played: before a start all of them. */
  function Pending(s: State): nat
    requires s.card.civ < BUFFERS && s.card.lvi < BUFFERS
  {
    if s.running then InFlight(s.card) else s.queued
  }

  /** The `p`-th buffer before the one being filled. */
  function Back(head: nat, p: nat): (i: nat)
    requires head < BUFFERS && p <= BUFFERS
    ensures i < BUFFERS
  {
    Around(head + BUFFERS - p)
  }

  ghost predicate Shaped(audio: seq<seq<Sample>>, sizes: seq<nat>) {
    && |audio| == |sizes| == BUFFERS
    && forall i :: 0 <= i < BUFFERS ==> |audio[i]| == SIZE && sizes[i] <= SIZE
  }

  ghost function Buffer(audio: seq<seq<Sample>>, sizes: seq<nat>, i: nat): seq<Sample>
    requires Shaped(audio, sizes) && i < BUFFERS
  {
    audio[i][..sizes[i]]
  }

  /** The samples of the last `p` buffers handed over, in playing order. */
  ghost function Handed(audio: seq<seq<Sample>>, sizes: seq<nat>, head: nat, p: nat): seq<Sample>
    requires Shaped(audio, sizes) && head < BUFFERS && p <= BUFFERS
    decreases p
  {
    if p == 0 then [] else Buffer(audio, sizes, Back(head, p)) + Handed(audio, sizes, head, p - 1)
  }

  // ---- steps ----

  function Wrote(s: State, x: Sample): State
    requires |s.ring| == RING && s.front < RING
  {
    if (s.front + 1) % RING == s.tail then s
    else s.(ring := s.ring[s.front := x], front := (s.front + 1) % RING, supplied := s.supplied + [x])
  }

  /** The card finishes a buffer, and goes on to the next or halts at the last. */
  ghost function Played(s: State): State
    requires Shaped(s.audio, s.sizes) && s.card.civ < BUFFERS
  {
    if !s.running || s.card.halted then s
    else
      var after := s.(played := s.played + Buffer(s.audio, s.sizes, s.card.civ));
      if s.card.civ == s.card.lvi then after.(card := s.card.(halted := true))
      else after.(card := s.card.(civ := Around(s.card.civ + 1)))
  }

  const RESET := Card(0, 0, true)

  /** After an underrun the card starts again from buffer 0, where the waiting samples are moved. */
  function Restarted(s: State, samples: nat): State
    requires |s.audio| == BUFFERS && s.head < BUFFERS && samples <= |s.audio[s.head]| && samples <= |s.audio[0]|
  {
    var audio := if s.head == 0 then s.audio else s.audio[0 := s.audio[s.head][..samples] + s.audio[0][samples..]];
    s.(card := RESET, audio := audio, head := 0, running := false, queued := 0)
  }

  /** The filled buffer becomes the card's last; with enough behind it the card starts. */
  function HandedOver(s: State, samples: nat): State
    requires s.head < |s.sizes| == BUFFERS
  {
    var start := !s.running && s.queued + 1 >= PREFILL;
    s.(sizes := s.sizes[s.head := samples],
       card := s.card.(lvi := s.head, halted := if start then false else s.card.halted),
       head := Around(s.head + 1), fill := 0,
       queued := if s.running then s.queued else s.queued + 1,
       running := s.running || start)
  }

  predicate Underrun(s: State) { s.running && s.card.halted }

  ghost predicate Ready(s: State) {
    && Shaped(s.audio, s.sizes) && s.head < BUFFERS && s.fill <= SIZE
    && s.card.civ < BUFFERS && s.card.lvi < BUFFERS
    && |s.ring| == RING && s.front < RING && s.tail < RING
  }

  ghost function Submit(s: State): State
    requires Ready(s)
  {
    HandedOver(if Underrun(s) then Restarted(s, s.fill) else s, s.fill)
  }

  function Least(a: nat, b: nat): nat { if a <= b then a else b }

  /** As much as is waiting, fits the buffer and does not cross the ring's end. */
  function Chunk(s: State): nat
    requires s.front < RING && s.tail < RING && s.fill <= SIZE
  {
    Least(Least(Used(s.front, s.tail), SIZE - s.fill), RING - s.tail)
  }

  ghost function Copied(s: State): (c: State)
    requires Ready(s)
    ensures Ready(c)
  {
    var n := Chunk(s);
    var b := s.audio[s.head];
    s.(audio := s.audio[s.head := b[..s.fill] + s.ring[s.tail..s.tail + n] + b[s.fill + n..]],
       fill := s.fill + n, tail := (s.tail + n) % RING)
  }

  predicate Blocked(s: State)
    requires s.card.civ < BUFFERS && s.card.lvi < BUFFERS
  {
    s.front == s.tail || (s.fill == 0 && Free(s.card) == 0)
  }

  /** One turn of the loop that moves samples to the card. */
  ghost function Pumped(s: State): State
    requires Ready(s)
  {
    if Blocked(s) then s else FullSubmitted(Copied(s))
  }

  ghost function FullSubmitted(s: State): State
    requires Ready(s)
  {
    if s.fill == SIZE then Submit(s) else s
  }

  function ForceStarted(s: State): State {
    if !s.running && s.queued > 0 then s.(running := true, card := s.card.(halted := false)) else s
  }

  /** Hands over a part-filled buffer and starts the card on whatever is ready. */
  ghost function Flushed(s: State): State
    requires Ready(s)
  {
    ForceStarted(if s.fill > 0 && Free(s.card) > 0 then Submit(s) else s)
  }

  function Silence(): (a: seq<seq<Sample>>)
    ensures |a| == BUFFERS && forall i :: 0 <= i < BUFFERS ==> |a[i]| == SIZE
  {
    seq(BUFFERS, _ => seq(SIZE, _ => 0))
  }

  /** Drops everything; the histories start anew. */
  function Stopped(s: State): State {
    s.(card := RESET, audio := Silence(), head := 0, fill := 0, running := false, queued := 0, tail := s.front,
       played := [], supplied := [])
  }

  // ---- the invariant ----

  /** How the driver's variables and the card's registers agree. */
  predicate InStep(s: State)
    requires s.head < BUFFERS
  {
    if !s.running then
      s.head == s.queued < PREFILL && s.card.civ == 0 && s.card.halted && (s.queued > 0 ==> s.card.lvi == s.queued - 1)
    else s.card.lvi == Back(s.head, 1) && (s.card.halted ==> s.card.civ == s.card.lvi)
  }

  /** The samples not yet played: handed over, in the buffer being filled, in the ring. */
  ghost function Rest(s: State, p: nat): seq<Sample>
    requires Ready(s) && p < BUFFERS
  {
    Handed(s.audio, s.sizes, s.head, p) + s.audio[s.head][..s.fill] + Waiting(s.ring, s.front, s.tail)
  }

  ghost predicate Bounded(s: State)
    requires Ready(s)
  {
    && InStep(s) && s.fill < SIZE
    && Pending(s) < BUFFERS && (s.fill > 0 ==> Pending(s) + 1 < BUFFERS)
  }

  /** Everything supplied has been played or is still to be, in order. */
  ghost predicate Inv(s: State) {
    Ready(s) && Bounded(s) && s.supplied == s.played + Rest(s, Pending(s))
  }

  /** The engine has a buffer still to play, or is at it: it lies from the current index around to the last valid one. */
  predicate Has(c: Card, i: nat)
    requires c.civ < BUFFERS && c.lvi < BUFFERS && i < BUFFERS
  {
    !c.halted && Around(i + BUFFERS - c.civ) <= Around(c.lvi + BUFFERS - c.civ)
  }

  /** A buffer the card has, or will have once it starts. */
  predicate Owned(s: State, i: nat)
    requires s.card.civ < BUFFERS && s.card.lvi < BUFFERS && i < BUFFERS
  {
    if s.running then Has(s.card, i) else i < s.queued
  }

  /** The buffers handed over and not played are those the card's registers say it has; the one being filled is not. */
  lemma FillingIsFree(s: State, i: nat)
    requires Inv(s) && i < BUFFERS
    ensures !Owned(s, s.head)
    ensures Owned(s, i) <==> 1 <= Around(s.head + BUFFERS - i) <= Pending(s)
    ensures Back(s.head, Around(s.head + BUFFERS - i)) == i
  {
  }

  // ---- handed-over buffers ----

  lemma {:induction false} HandedFrame(audio: seq<seq<Sample>>, sizes: seq<nat>, audio': seq<seq<Sample>>, sizes': seq<nat>,
                                       head: nat, p: nat)
    requires Shaped(audio, sizes) && Shaped(audio', sizes') && head < BUFFERS && p < BUFFERS
    requires forall i :: 0 <= i < BUFFERS && i != head ==> audio[i] == audio'[i] && sizes[i] == sizes'[i]
    ensures Handed(audio, sizes, head, p) == Handed(audio', sizes', head, p)
    decreases p
  {
    if p > 0 {
      HandedFrame(audio, sizes, audio', sizes', head, p - 1);
      assert Back(head, p) != head;
    }
  }

  lemma {:induction false} HandedMore(audio: seq<seq<Sample>>, sizes: seq<nat>, head: nat, p: nat)
    requires Shaped(audio, sizes) && head < BUFFERS && p < BUFFERS
    ensures Handed(audio, sizes, Around(head + 1), p + 1) ==
            Handed(audio, sizes, head, p) + Buffer(audio, sizes, head)
    decreases p
  {
    var next := Around(head + 1);
    assert Back(next, p + 1) == Back(head, p);
    if p == 0 {
      assert Handed(audio, sizes, next, 1) == Buffer(audio, sizes, Back(next, 1)) + Handed(audio, sizes, next, 0);
    } else {
      HandedMore(audio, sizes, head, p - 1);
      assert Handed(audio, sizes, next, p + 1) == Buffer(audio, sizes, Back(next, p + 1)) + Handed(audio, sizes, next, p);
    }
  }

  // ---- what each step keeps ----

  lemma WaitingMore(ring: seq<Sample>, front: nat, tail: nat, x: Sample)
    requires |ring| == RING && front < RING && tail < RING && (front + 1) % RING != tail
    ensures Waiting(ring[front := x], (front + 1) % RING, tail) == Waiting(ring, front, tail) + [x]
  {
    var n := Used(front, tail);
    UsedMore(front, tail);
    forall i: nat | i < n ensures At(tail, i) != front {
      AtDiffers(tail, i, n);
    }
  }

  lemma UsedMore(front: nat, tail: nat)
    requires front < RING && tail < RING && (front + 1) % RING != tail
    ensures Used((front + 1) % RING, tail) == Used(front, tail) + 1 && At(tail, Used(front, tail)) == front
  {
  }

  lemma AtDiffers(tail: nat, i: nat, n: nat)
    requires tail < RING && i < n < RING
    ensures At(tail, i) != At(tail, n)
  {
  }

  lemma WriteKeeps(s: State, x: Sample)
    requires Inv(s)
    ensures Inv(Wrote(s, x))
  {
    if (s.front + 1) % RING != s.tail {
      WaitingMore(s.ring, s.front, s.tail, x);
      var t := Wrote(s, x);
      assert t.supplied == t.played + Rest(t, Pending(t));
    }
  }

  lemma PlayKeeps(s: State)
    requires Inv(s)
    ensures Inv(Played(s))
  {
    if s.running && !s.card.halted {
      PlayPending(s);
      PlayRest(s, Pending(s));
    }
  }

  lemma PlayPending(s: State)
    requires Ready(s) && InStep(s) && s.running && !s.card.halted
    ensures InStep(Played(s)) && Pending(Played(s)) == Pending(s) - 1 && Back(s.head, Pending(s)) == s.card.civ
  {
  }

  lemma PlayRest(s: State, p: nat)
    requires Ready(s) && s.running && !s.card.halted && 1 <= p < BUFFERS && Back(s.head, p) == s.card.civ
    ensures s.played + Rest(s, p) == Played(s).played + Rest(Played(s), p - 1)
  {
    var t, b := Played(s), Buffer(s.audio, s.sizes, s.card.civ);
    var handed, part := Handed(s.audio, s.sizes, s.head, p - 1), s.audio[s.head][..s.fill];
    FourParts(s.played, b, handed, part, Waiting(s.ring, s.front, s.tail));
  }

  lemma FourParts<T>(a: seq<T>, b: seq<T>, c: seq<T>, d: seq<T>, e: seq<T>)
    ensures a + (b + c + d + e) == a + b + (c + d + e)
  {
  }

  lemma WaitingLess(ring: seq<Sample>, front: nat, tail: nat, n: nat)
    requires |ring| == RING && front < RING && tail < RING && n <= Used(front, tail) && tail + n <= RING
    ensures Waiting(ring, front, tail) == ring[tail..tail + n] + Waiting(ring, front, (tail + n) % RING)
  {
    var next := (tail + n) % RING;
    assert Used(front, next) == Used(front, tail) - n;
    forall i | 0 <= i < Used(front, next) ensures At(next, i) == At(tail, n + i) {
    }
  }

  lemma CopyRest(s: State, p: nat)
    requires Ready(s) && p < BUFFERS
    ensures Rest(Copied(s), p) == Rest(s, p)
  {
    var t, n := Copied(s), Chunk(s);
    HandedFrame(s.audio, s.sizes, t.audio, t.sizes, s.head, p);
    WaitingLess(s.ring, s.front, s.tail, n);
    var part, chunk := s.audio[s.head][..s.fill], s.ring[s.tail..s.tail + n];
    assert t.audio[s.head][..t.fill] == part + chunk;
  }

  /** Submitting moves the filled buffer behind those already handed over. */
  lemma HandOverRest(s: State, p: nat)
    requires Ready(s) && p + 1 < BUFFERS
    ensures Ready(HandedOver(s, s.fill)) && Rest(HandedOver(s, s.fill), p + 1) == Rest(s, p)
  {
    var t := HandedOver(s, s.fill);
    HandedFrame(s.audio, s.sizes, t.audio, t.sizes, s.head, p);
    HandedMore(t.audio, t.sizes, s.head, p);
    assert t.audio[t.head][..0] == [] && Buffer(t.audio, t.sizes, s.head) == s.audio[s.head][..s.fill];
    assert Handed(t.audio, t.sizes, t.head, p + 1) + [] == Handed(t.audio, t.sizes, t.head, p + 1);
  }

  lemma HandOverKeeps(s: State)
    requires Ready(s) && InStep(s) && !Underrun(s) && Pending(s) + 1 < BUFFERS
    requires s.supplied == s.played + Rest(s, Pending(s))
    ensures Inv(HandedOver(s, s.fill))
  {
    HandOverRest(s, Pending(s));
    HandOverPending(s);
  }

  lemma HandOverPending(s: State)
    requires Ready(s) && InStep(s) && !Underrun(s) && Pending(s) + 1 < BUFFERS
    ensures var t := HandedOver(s, s.fill); Ready(t) && InStep(t) && Pending(t) == Pending(s) + 1
  {
  }

  lemma RestartRest(s: State)
    requires Ready(s)
    ensures Ready(Restarted(s, s.fill)) && Rest(Restarted(s, s.fill), 0) == Rest(s, 0)
  {
    var t := Restarted(s, s.fill);
    assert t.audio[0][..s.fill] == s.audio[s.head][..s.fill];
  }

  /** So it does across an underrun, when the card starts over. */
  lemma SubmitKeeps(s: State)
    requires Ready(s) && InStep(s) && Pending(s) + 1 < BUFFERS
    requires s.supplied == s.played + Rest(s, Pending(s))
    ensures Inv(Submit(s))
  {
    if Underrun(s) {
      RestartRest(s);
      HandOverKeeps(Restarted(s, s.fill));
    } else {
      HandOverKeeps(s);
    }
  }

  lemma FreeMeansRoom(s: State)
    requires Ready(s) && InStep(s) && Free(s.card) > 0
    ensures Pending(s) + 1 < BUFFERS
  {
  }

  lemma PumpKeeps(s: State)
    requires Inv(s)
    ensures Inv(Pumped(s))
  {
    if !Blocked(s) {
      var t := Copied(s);
      if s.fill == 0 {
        FreeMeansRoom(s);
      }
      assert Pending(t) == Pending(s);
      CopyRest(s, Pending(s));
      if t.fill == SIZE {
        SubmitKeeps(t);
      }
    }
  }

  lemma ForceKeeps(s: State)
    requires Inv(s)
    ensures Inv(ForceStarted(s))
  {
    var t := ForceStarted(s);
    if !s.running && s.queued > 0 {
      assert Pending(t) == Pending(s);
    }
  }

  lemma FlushKeeps(s: State)
    requires Inv(s)
    ensures Inv(Flushed(s))
  {
    if s.fill > 0 && Free(s.card) > 0 {
      SubmitKeeps(s);
      ForceKeeps(Submit(s));
    } else {
      ForceKeeps(s);
    }
  }

  lemma StopKeeps(s: State)
    requires Inv(s)
    ensures Inv(Stopped(s))
  {
    var t := Stopped(s);
    assert Rest(t, 0) == [];
  }

  // ---- runs ----

  ghost function Step(s: State, a: Action): State
    requires Ready(s)
  {
    match a
    case Write(x) => Wrote(s, x)
    case Play => Played(s)
    case Pump => Pumped(s)
    case Flush => Flushed(s)
    case Stop => Stopped(s)
  }

  lemma StepKeeps(s: State, a: Action)
    requires Inv(s)
    ensures Inv(Step(s, a))
  {
    match a
    case Write(x) => WriteKeeps(s, x);
    case Play => PlayKeeps(s);
    case Pump => PumpKeeps(s);
    case Flush => FlushKeeps(s);
    case Stop => StopKeeps(s);
  }

  /** After bring-up: the card reset, the ring empty. */
  ghost predicate Initial(s: State) {
    && Ready(s) && s.card == RESET && !s.running && s.queued == 0 && s.head == 0 && s.fill == 0
    && s.front == s.tail && s.played == [] && s.supplied == []
  }

  ghost predicate Reaches(s: State, actions: seq<Action>, t: State)
    decreases |actions|
  {
    if actions == [] then s == t else Ready(s) && Reaches(Step(s, actions[0]), actions[1..], t)
  }

  lemma {:induction false} RunKeeps(s: State, actions: seq<Action>, t: State)
    requires Inv(s) && Reaches(s, actions, t)
    ensures Inv(t)
    decreases |actions|
  {
    if actions != [] {
      StepKeeps(s, actions[0]);
      RunKeeps(Step(s, actions[0]), actions[1..], t);
    }
  }

  /**
   In every run, however writer, card and driver take turns and however often the
   card runs dry: what was supplied since the last stop is what was played, then
   the buffers handed over, then the part-filled buffer, then the ring. The buffers
   handed over are those the card's registers say it has, and the one being filled
   is none of them.
   */
  lemma SamplesInOrder(s: State, actions: seq<Action>, t: State, i: nat)
    requires Initial(s) && Reaches(s, actions, t) && i < BUFFERS
    ensures Ready(t) && Pending(t) < BUFFERS && t.supplied == t.played + Rest(t, Pending(t))
    ensures !Owned(t, t.head) && (Owned(t, i) <==> 1 <= Around(t.head + BUFFERS - i) <= Pending(t))
  {
    assert Rest(s, 0) == [];
    RunKeeps(s, actions, t);
    FillingIsFree(t, i);
  }

  lemma SubmitMisses(s: State, i: nat)
    requires Ready(s) && i < BUFFERS && i != s.head && !Underrun(s)
    ensures Submit(s).audio[i] == s.audio[i] && Submit(s).sizes[i] == s.sizes[i]
  {
  }

  /** Nothing the writer, the card or the driver does, short of a stop, changes a buffer the card has. */
  lemma StepMissesCard(s: State, a: Action, i: nat)
    requires Inv(s) && i < BUFFERS && Owned(s, i) && !a.Stop?
    ensures Step(s, a).audio[i] == s.audio[i] && Step(s, a).sizes[i] == s.sizes[i]
  {
    FillingIsFree(s, i);
    assert i != s.head && !Underrun(s);
    match a
    case Pump =>
      if !Blocked(s) {
        SubmitMisses(Copied(s), i);
      }
    case Flush => SubmitMisses(s, i);
    case _ =>
  }

  /** So in every run what the card plays is what was handed to it. */
  lemma NeverOverwritten(s: State, actions: seq<Action>, t: State, a: Action, i: nat)
    requires Initial(s) && Reaches(s, actions, t) && i < BUFFERS
    ensures Ready(t)
    ensures Owned(t, i) && !a.Stop? ==> Step(t, a).audio[i] == t.audio[i] && Step(t, a).sizes[i] == t.sizes[i]
  {
    assert Rest(s, 0) == [];
    RunKeeps(s, actions, t);
    if Owned(t, i) && !a.Stop? {
      StepMissesCard(t, a, i);
    }
  }

  // ---- the driver ----

  ghost function Turns(s: State, n: nat): State
    requires Inv(s)
    decreases n
  {
    if n == 0 then s else PumpKeeps(s); Turns(Pumped(s), n - 1)
  }

  lemma {:induction false} TurnsMore(s: State, n: nat)
    requires Inv(s)
    ensures Inv(Turns(s, n)) && Turns(s, n + 1) == Pumped(Turns(s, n))
    decreases n
  {
    PumpKeeps(s);
    if n > 0 {
      TurnsMore(Pumped(s), n - 1);
    }
  }

  lemma ChunkTaken(s: State)
    requires Inv(s) && !Blocked(s)
    ensures var t := Pumped(s);
            Chunk(s) > 0 && t.front < RING && t.tail < RING && Used(t.front, t.tail) == Used(s.front, s.tail) - Chunk(s)
  {
    UsedLess(s.front, s.tail, Chunk(s));
  }

  lemma UsedLess(front: nat, tail: nat, n: nat)
    requires front < RING && tail < RING && n <= Used(front, tail) && tail + n <= RING
    ensures Used(front, (tail + n) % RING) == Used(front, tail) - n
  {
  }

  class Driver {
    var card: Card
    var running: bool
    var queued: nat
    var head: nat
    var fill: nat
    var audio: seq<seq<Sample>>
    var sizes: seq<nat>
    var ring: seq<Sample>
    var front: nat
    var tail: nat
    ghost var played: seq<Sample>
    ghost var supplied: seq<Sample>

    ghost function View(): State
      reads this
    {
      State(card, running, queued, head, fill, audio, sizes, ring, front, tail, played, supplied)
    }

    method Restart()
      requires Ready(View())
      modifies this
      ensures View() == Restarted(old(View()), old(fill))
    {
      card := RESET;
      if head != 0 {
        audio := audio[0 := audio[head][..fill] + audio[0][fill..]];
        head := 0;
      }
      running := false;
      queued := 0;
    }

    method Queue()
      requires Ready(View())
      modifies this
      ensures View() == HandedOver(old(View()), old(fill))
    {
      sizes := sizes[head := fill];
      card := card.(lvi := head);
      head := Around(head + 1);
      fill := 0;
      if !running {
        queued := queued + 1;
        if queued >= PREFILL {
          card := card.(halted := false);
          running := true;
        }
      }
    }

    /** Hands the buffer being filled to the card, starting over if it has run dry. */
    method HandOver()
      requires Ready(View())
      modifies this
      ensures View() == Submit(old(View()))
    {
      if running && card.halted {
        RestartRest(View());
        Restart();
      }
      Queue();
    }

    method Copy() returns (moved: nat)
      requires Ready(View())
      modifies this
      ensures View() == Copied(old(View())) && moved == Chunk(old(View()))
    {
      var available := Used(front, tail);
      var room := SIZE - fill;
      if available > room {
        available := room;
      }
      if tail + available > RING {
        available := RING - tail;
      }
      var b := audio[head];
      audio := audio[head := b[..fill] + ring[tail..tail + available] + b[fill + available..]];
      fill := fill + available;
      tail := (tail + available) % RING;
      moved := available;
    }

    /** One turn: copies what is waiting and contiguous, and hands over a full buffer. */
    method Turn() returns (moved: nat)
      requires Inv(View()) && !Blocked(View())
      modifies this
      ensures View() == Pumped(old(View())) && Inv(View())
      ensures moved > 0 && Used(front, tail) == old(Used(front, tail)) - moved
    {
      ghost var before := View();
      PumpKeeps(before);
      ChunkTaken(before);
      moved := Copy();
      if fill == SIZE {
        HandOver();
      }
    }

    /** Turns until the ring is empty or every buffer is taken. */
    method PumpAll() returns (taken: nat, ghost turns: nat)
      requires Inv(View())
      modifies this
      ensures Inv(View()) && View() == Turns(old(View()), turns) && Blocked(View())
      ensures taken == old(Used(front, tail)) - Used(front, tail)
    {
      taken, turns := 0, 0;
      while !(front == tail || (fill == 0 && Free(card) == 0))
        invariant Inv(View()) && View() == Turns(old(View()), turns)
        invariant taken == old(Used(front, tail)) - Used(front, tail)
        decreases Used(front, tail)
      {
        TurnsMore(old(View()), turns);
        var moved := Turn();
        taken, turns := taken + moved, turns + 1;
      }
    }

    method FlushPart()
      requires Inv(View())
      modifies this
      ensures View() == Flushed(old(View()))
    {
      if fill > 0 && Free(card) > 0 {
        HandOver();
      }
      if !running && queued > 0 {
        card := card.(halted := false);
        running := true;
      }
    }

    method StopAll()
      requires Inv(View())
      modifies this
      ensures View() == Stopped(old(View()))
    {
      card := RESET;
      audio := Silence();
      head, fill, running, queued := 0, 0, false, 0;
      tail := front;
      played, supplied := [], [];
    }
  }
}
