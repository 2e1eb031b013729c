/**
 Names and answers of the domain name system, sections 3.1, 4.1 and 4.1.4 of
 RFC 1035: a host name becomes length-prefixed labels, and an answer is searched
 by stepping over names that may end in a pointer to an earlier one.
 */
module Dns {
  import opened Bytes
  import opened Wrappers

  type Label = seq<Byte>
  // What a parser reads: the datagram, and whatever lies behind it.
  type Memory = nat -> Byte

  const DOT: Byte := 46
  const ADDRESS := 1
  const ADDRESS6 := 28

  // ---- host names ----

  function SplitFrom(part: Label, rest: seq<Byte>): (r: seq<Label>)
    ensures r != []
    decreases |rest|
  {
    if rest == [] then [part]
    else if rest[0] == DOT then [part] + SplitFrom([], rest[1..])
    else SplitFrom(part + [rest[0]], rest[1..])
  }

  /** The labels of a host name: what lies between its dots. */
  function Split(host: seq<Byte>): (r: seq<Label>) { SplitFrom([], host) }

  function Join(labels: seq<Label>): seq<Byte>
    requires labels != []
  {
    if |labels| == 1 then labels[0] else labels[0] + [DOT] + Join(labels[1..])
  }

  lemma {:induction false} JoinFrom(part: Label, rest: seq<Byte>)
    ensures Join(SplitFrom(part, rest)) == part + rest
    decreases |rest|
  {
    if rest == [] {
    } else if rest[0] == DOT {
      JoinFrom([], rest[1..]);
      assert SplitFrom(part, rest)[1..] == SplitFrom([], rest[1..]);
      assert [DOT] + ([] + rest[1..]) == rest;
    } else {
      JoinFrom(part + [rest[0]], rest[1..]);
      assert [rest[0]] + rest[1..] == rest;
    }
  }

  lemma {:induction false} SplitOfLabel(part: Label, more: Label, rest: seq<Byte>)
    requires DOT !in more && (rest == [] || rest[0] == DOT)
    ensures SplitFrom(part, more + rest) ==
            if rest == [] then [part + more] else [part + more] + SplitFrom([], rest[1..])
    decreases |more|
  {
    if more == [] {
      assert more + rest == rest && part + more == part;
    } else {
      assert (more + rest)[1..] == more[1..] + rest;
      SplitOfLabel(part + [more[0]], more[1..], rest);
      assert part + [more[0]] + more[1..] == part + more;
    }
  }

  /** Splitting and joining undo each other. */
  lemma JoinSplit(host: seq<Byte>)
    ensures Join(Split(host)) == host
  {
    JoinFrom([], host);
  }

  lemma {:induction false} SplitJoin(labels: seq<Label>)
    requires labels != [] && forall l :: l in labels ==> DOT !in l
    ensures Split(Join(labels)) == labels
  {
    var l := labels[0];
    if |labels| == 1 {
      SplitOfLabel([], l, []);
      assert labels == [l] && l + [] == l && [] + l == l;
    } else {
      var rest := [DOT] + Join(labels[1..]);
      SplitOfLabel([], l, rest);
      assert l + [DOT] + Join(labels[1..]) == l + rest;
      assert rest[1..] == Join(labels[1..]);
      SplitJoin(labels[1..]);
      assert [] + l == l && [l] + labels[1..] == labels;
    }
  }

  // ---- names on the wire ----

  /** Each label behind its length, which is cut to a byte. */
  function Framed(labels: seq<Label>): seq<Byte> {
    if labels == [] then [] else [|labels[0]| % 256] + labels[0] + Framed(labels[1..])
  }

  function Encoded(labels: seq<Label>): seq<Byte> { Framed(labels) + [0] }

  predicate Fits(part: Label) { 1 <= |part| <= 63 }

  ghost predicate AllFit(labels: seq<Label>) { forall l :: l in labels ==> Fits(l) }

  lemma {:induction false} FramedMore(labels: seq<Label>, part: Label)
    ensures Framed(labels + [part]) == Framed(labels) + [|part| % 256] + part
  {
    if labels == [] {
      assert labels + [part] == [part] && [part][1..] == [];
    } else {
      assert (labels + [part])[1..] == labels[1..] + [part];
      FramedMore(labels[1..], part);
    }
  }

  /** Labels up to the empty one, as the standard reads a name without pointers; and what follows it. */
  function Decode(data: seq<Byte>): (r: Option<(seq<Label>, seq<Byte>)>)
    decreases |data|
  {
    if data == [] || data[0] > 63 || 1 + data[0] > |data| then None
    else if data[0] == 0 then Some(([], data[1..]))
    else
      match Decode(data[1 + data[0]..])
      case None => None
      case Some((labels, rest)) => Some(([data[1..1 + data[0]]] + labels, rest))
  }

  lemma DecodeLabel(part: Label, rest: seq<Byte>)
    requires Fits(part)
    ensures var data := [|part|] + part + rest;
            data[0] == |part| && data[1..1 + |part|] == part && data[1 + |part|..] == rest
  {
  }

  /** A name reads back exactly when each of its labels has 1 to 63 bytes. */
  lemma {:induction false} DecodesIff(labels: seq<Label>, rest: seq<Byte>)
    ensures Decode(Encoded(labels) + rest) == Some((labels, rest)) <==> AllFit(labels)
  {
    var data := Encoded(labels) + rest;
    if labels == [] {
      assert data == [0] + rest;
    } else {
      var l, tail := labels[0], Encoded(labels[1..]) + rest;
      assert data == [|l| % 256] + l + tail;
      DecodesIff(labels[1..], rest);
      if Fits(l) {
        DecodeLabel(l, tail);
        TailOfSome(data, l, labels, rest);
      } else {
        DecodeShort(data, l, labels, rest);
      }
      assert forall m :: m in labels <==> m == l || m in labels[1..];
    }
  }

  lemma TailOfSome(data: seq<Byte>, part: Label, labels: seq<Label>, rest: seq<Byte>)
    requires Fits(part) && 1 + |part| <= |data| && data[0] == |part| && data[1..1 + |part|] == part
    requires labels != [] && labels[0] == part
    ensures Decode(data) == Some((labels, rest)) <==> Decode(data[1 + |part|..]) == Some((labels[1..], rest))
  {
    match Decode(data[1 + |part|..]) {
      case None =>
      case Some((tail, after)) =>
        assert ([part] + tail)[1..] == tail;
        assert [part] + labels[1..] == labels;
    }
  }

  lemma DecodeShort(data: seq<Byte>, part: Label, labels: seq<Label>, rest: seq<Byte>)
    requires !Fits(part) && data != [] && data[0] == |part| % 256
    requires labels != [] && labels[0] == part
    ensures Decode(data) != Some((labels, rest))
  {
    if Decode(data).Some? && data[0] != 0 {
      assert |data[1..1 + data[0]]| <= 63;
    }
  }

  /**
   Writes a host name as it goes on the wire. Each label's length is filled in
   when its end is reached.
   */
  method EncodeName(host: seq<Byte>, out: array<Byte>) returns (n: nat)
    requires |host| + 2 <= out.Length
    modifies out
    ensures n == |host| + 2 && out[..n] == Encoded(Split(host))
    ensures forall k :: n <= k < out.Length ==> out[k] == old(out[k])
  {
    var at, part, i := 1, 0, 0;
    out[0] := 0;
    ghost var done: seq<Label>, cur: Label := [], [];
    while i < |host|
      invariant 0 <= i <= |host| && at == i + 1 && part == |cur| && |Framed(done)| == at - part - 1
      invariant Split(host) == done + SplitFrom(cur, host[i..])
      invariant out[..at] == Framed(done) + [0] + cur
      invariant forall k :: at <= k < out.Length ==> out[k] == old(out[k])
    {
      NextByte(done, cur, host[i..]);
      assert host[i..][1..] == host[i + 1..];
      ghost var before: seq<Byte> := out[..at];
      if host[i] == DOT {
        CloseLabel(out, at, part, done, cur);
        done, cur, before := done + [cur], [], out[..at];
        part := 0;
        out[at] := 0;
      } else {
        out[at] := host[i];
        cur := cur + [host[i]];
        part := part + 1;
      }
      assert out[..at + 1] == before + [out[at]];
      at, i := at + 1, i + 1;
    }
    CloseLabel(out, at, part, done, cur);
    out[at] := 0;
    n := at + 1;
    assert out[..n] == out[..at] + [out[at]];
  }

  method CloseLabel(out: array<Byte>, at: nat, part: nat, ghost done: seq<Label>, ghost cur: Label)
    requires at < out.Length && part == |cur| && |Framed(done)| + 1 + part == at
    requires out[..at] == Framed(done) + [0] + cur
    modifies out
    ensures out[..at] == Framed(done + [cur])
    ensures forall k :: at <= k < out.Length ==> out[k] == old(out[k])
  {
    Patched(done, cur);
    ghost var before: seq<Byte> := out[..at];
    out[at - part - 1] := part % 256;
    assert out[..at] == before[at - part - 1 := out[at - part - 1]];
  }

  lemma NextByte(done: seq<Label>, cur: Label, rest: seq<Byte>)
    requires rest != []
    ensures done + SplitFrom(cur, rest) ==
            if rest[0] == DOT then done + [cur] + SplitFrom([], rest[1..])
            else done + SplitFrom(cur + [rest[0]], rest[1..])
  {
  }

  /** Filling in the length of the label just ended completes it. */
  lemma Patched(done: seq<Label>, cur: Label)
    ensures (Framed(done) + [0] + cur)[|Framed(done)| := |cur| % 256] == Framed(done + [cur])
  {
    FramedMore(done, cur);
  }

  // ---- well-formed messages ----

  datatype End = Root | Pointer(high: Byte, low: Byte)
  datatype Name = Name(labels: seq<Label>, end: End)
  datatype Question = Question(name: Name, kind: seq<Byte>)
  datatype Record = Record(name: Name, kind: nat, middle: seq<Byte>, data: seq<Byte>)
  datatype Message = Message(id: nat, flags: nat, questions: seq<Question>, answers: seq<Record>, counts: seq<Byte>)

  ghost predicate NameOk(n: Name) {
    AllFit(n.labels) && (n.end.Pointer? ==> n.end.high >= 192)
  }

  ghost predicate QuestionOk(q: Question) { NameOk(q.name) && |q.kind| == 4 }

  ghost predicate RecordOk(r: Record) {
    NameOk(r.name) && r.kind <= 0xFFFF && |r.middle| == 6 && |r.data| <= 0xFFFF
  }

  ghost predicate MessageOk(m: Message) {
    && m.id <= 0xFFFF && m.flags <= 0xFFFF && |m.counts| == 4
    && |m.questions| <= 0xFFFF && |m.answers| <= 0xFFFF
    && (forall q :: q in m.questions ==> QuestionOk(q))
    && (forall r :: r in m.answers ==> RecordOk(r))
  }

  function EndBytes(e: End): (b: seq<Byte>)
    ensures 1 <= |b| <= 2
  {
    match e case Root => [0] case Pointer(high, low) => [high, low]
  }

  function NameBytes(n: Name): seq<Byte> { Framed(n.labels) + EndBytes(n.end) }

  function QuestionsBytes(qs: seq<Question>): seq<Byte> {
    if qs == [] then [] else NameBytes(qs[0].name) + (qs[0].kind + QuestionsBytes(qs[1..]))
  }

  function FixedBytes(r: Record): seq<Byte> { BigEndian(r.kind, 2) + r.middle + BigEndian(|r.data|, 2) }

  function RecordsBytes(rs: seq<Record>): seq<Byte> {
    if rs == [] then [] else NameBytes(rs[0].name) + (FixedBytes(rs[0]) + (rs[0].data + RecordsBytes(rs[1..])))
  }

  function HeaderBytes(m: Message): seq<Byte> {
    BigEndian(m.id, 2) + BigEndian(m.flags, 2) + BigEndian(|m.questions|, 2) + BigEndian(|m.answers|, 2) + m.counts
  }

  /** A message as it is sent; further sections may follow. */
  function MessageBytes(m: Message): seq<Byte> {
    HeaderBytes(m) + (QuestionsBytes(m.questions) + RecordsBytes(m.answers))
  }

  /** The data of the first answer of one type and size. */
  function First(rs: seq<Record>, kind: nat, size: nat): Option<seq<Byte>> {
    if rs == [] then None
    else if rs[0].kind == kind && |rs[0].data| == size then Some(rs[0].data)
    else First(rs[1..], kind, size)
  }

  // ---- reading ----

  function Slice(p: Memory, at: nat, n: nat): (s: seq<Byte>)
    ensures |s| == n
  {
    seq(n, i requires 0 <= i < n => p(at + i))
  }

  ghost predicate Holds(p: Memory, at: nat, bytes: seq<Byte>) { Slice(p, at, |bytes|) == bytes }

  lemma HeldByte(p: Memory, at: nat, bytes: seq<Byte>, i: nat)
    requires Holds(p, at, bytes) && i < |bytes|
    ensures p(at + i) == bytes[i]
  {
    assert Slice(p, at, |bytes|)[i] == bytes[i];
  }

  lemma HoldsParts(p: Memory, at: nat, a: seq<Byte>, b: seq<Byte>)
    requires Holds(p, at, a + b)
    ensures Holds(p, at, a) && Holds(p, at + |a|, b)
  {
    forall i: nat | i < |a| ensures Slice(p, at, |a|)[i] == a[i] {
      HeldByte(p, at, a + b, i);
    }
    forall i: nat | i < |b| ensures Slice(p, at + |a|, |b|)[i] == b[i] {
      HeldByte(p, at, a + b, |a| + i);
      assert at + |a| + i == at + (|a| + i);
    }
  }

  function Word16(p: Memory, at: nat): (w: nat)
    ensures w <= 0xFFFF
  {
    Word(p(at), p(at + 1))
  }

  lemma HeldWord(p: Memory, at: nat, v: nat)
    requires v <= 0xFFFF && Holds(p, at, BigEndian(v, 2))
    ensures Word16(p, at) == v
  {
    BigEndian2(v);
    HeldByte(p, at, BigEndian(v, 2), 0);
    HeldByte(p, at, BigEndian(v, 2), 1);
    assert v / 256 % 256 == v / 256;
  }

  /** Past a name: behind its empty label or its pointer, or at the end. */
  function Skip(p: Memory, at: nat, length: nat): nat
    decreases length - at
  {
    if at >= length then length
    else if p(at) == 0 then at + 1
    else if p(at) >= 192 then at + 2
    else Skip(p, at + 1 + p(at), length)
  }

  method SkipName(p: Memory, start: nat, length: nat) returns (end: nat)
    ensures end == Skip(p, start, length)
  {
    var at := start;
    while at < length
      invariant Skip(p, at, length) == Skip(p, start, length)
      decreases length - at
    {
      var len := p(at);
      if len == 0 {
        return at + 1;
      }
      // The top two bits set: 0xC0 to 0xFF.
      if len >= 192 {
        return at + 2;
      }
      at := at + 1 + len;
    }
    return length;
  }

  /** Skipping lands exactly past any name, compressed or not. */
  lemma {:induction false} SkipLands(p: Memory, at: nat, length: nat, n: Name)
    requires NameOk(n) && Holds(p, at, NameBytes(n)) && at + |NameBytes(n)| <= length
    ensures Skip(p, at, length) == at + |NameBytes(n)|
    decreases |n.labels|
  {
    if n.labels == [] {
      assert NameBytes(n) == EndBytes(n.end);
      HeldByte(p, at, NameBytes(n), 0);
    } else {
      var l, rest := n.labels[0], n.(labels := n.labels[1..]);
      assert l in n.labels && Fits(l);
      assert NameBytes(n) == ([|l|] + l) + NameBytes(rest);
      HoldsParts(p, at, [|l|] + l, NameBytes(rest));
      HeldByte(p, at, [|l|] + l, 0);
      SkipLands(p, at + 1 + |l|, length, rest);
    }
  }

  /** So it does past every host name encoded from labels of 1 to 63 bytes. */
  lemma EncodedSkipped(p: Memory, at: nat, length: nat, host: seq<Byte>)
    requires AllFit(Split(host)) && Holds(p, at, Encoded(Split(host))) && at + |Encoded(Split(host))| <= length
    ensures Skip(p, at, length) == at + |Encoded(Split(host))|
  {
    SkipLands(p, at, length, Name(Split(host), Root));
  }

  function SkipQuestions(p: Memory, at: nat, length: nat, n: nat): nat
    decreases n
  {
    if n == 0 then at else SkipQuestions(p, Skip(p, at, length) + 4, length, n - 1)
  }

  /** Where the data of the first record of one type and size lies, among the next `n`. */
  function Search(p: Memory, at: nat, length: nat, n: nat, kind: nat, size: nat): Option<nat>
    decreases n
  {
    if n == 0 || at + 10 > length then None
    else SearchAt(p, Skip(p, at, length), length, n, kind, size)
  }

  function SearchAt(p: Memory, fixed: nat, length: nat, n: nat, kind: nat, size: nat): Option<nat>
    requires n > 0
    decreases n, 0
  {
    var len := Word16(p, fixed + 8);
    if Word16(p, fixed) == kind && len == size && fixed + 10 + size <= length then Some(fixed + 10)
    else Search(p, fixed + 10 + len, length, n - 1, kind, size)
  }

  function Read(p: Memory, found: Option<nat>, size: nat): Option<seq<Byte>> {
    if found.Some? then Some(Slice(p, found.value, size)) else None
  }

  function Locate(p: Memory, length: nat, kind: nat, size: nat): Option<nat> {
    if length < 12 || Word16(p, 2) % 16 != 0 then None
    else Search(p, SkipQuestions(p, 12, length, Word16(p, 4)), length, Word16(p, 6), kind, size)
  }

  /** What an answer holds, as far as the resolver is concerned: nothing if the server reported an error. */
  function Parse(p: Memory, length: nat, kind: nat, size: nat): Option<seq<Byte>> {
    Read(p, Locate(p, length, kind, size), size)
  }

  lemma {:induction false} QuestionsSkipped(p: Memory, at: nat, length: nat, qs: seq<Question>)
    requires (forall q :: q in qs ==> QuestionOk(q)) && Holds(p, at, QuestionsBytes(qs))
    requires at + |QuestionsBytes(qs)| <= length
    ensures SkipQuestions(p, at, length, |qs|) == at + |QuestionsBytes(qs)|
    decreases |qs|
  {
    if qs != [] {
      var name, rest := NameBytes(qs[0].name), QuestionsBytes(qs[1..]);
      assert QuestionOk(qs[0]);
      HoldsParts(p, at, name, qs[0].kind + rest);
      HoldsParts(p, at + |name|, qs[0].kind, rest);
      SkipLands(p, at, length, qs[0].name);
      QuestionsSkipped(p, at + |name| + 4, length, qs[1..]);
    }
  }

  lemma FixedRead(p: Memory, at: nat, r: Record)
    requires RecordOk(r) && Holds(p, at, FixedBytes(r))
    ensures Word16(p, at) == r.kind && Word16(p, at + 8) == |r.data| && |FixedBytes(r)| == 10
  {
    var kind, len := BigEndian(r.kind, 2), BigEndian(|r.data|, 2);
    HoldsParts(p, at, kind + r.middle, len);
    HoldsParts(p, at, kind, r.middle);
    HeldWord(p, at, r.kind);
    HeldWord(p, at + 8, |r.data|);
  }

  lemma SearchStep(p: Memory, at: nat, length: nat, n: nat, kind: nat, size: nat, fixed: nat, data: seq<Byte>)
    requires n > 0 && at < fixed == Skip(p, at, length) && fixed + 10 + |data| <= length
    requires Word16(p, fixed + 8) == |data| && Slice(p, fixed + 10, |data|) == data
    ensures Read(p, Search(p, at, length, n, kind, size), size) ==
            if Word16(p, fixed) == kind && |data| == size then Some(data)
            else Read(p, Search(p, fixed + 10 + |data|, length, n - 1, kind, size), size)
  {
    assert Search(p, at, length, n, kind, size) == SearchAt(p, fixed, length, n, kind, size);
  }

  /** The search steps record by record and finds the first that matches, or none. */
  lemma {:induction false} SearchIsFirst(p: Memory, at: nat, length: nat, rs: seq<Record>, kind: nat, size: nat)
    requires (forall r :: r in rs ==> RecordOk(r)) && Holds(p, at, RecordsBytes(rs))
    requires at + |RecordsBytes(rs)| <= length
    ensures Read(p, Search(p, at, length, |rs|, kind, size), size) == First(rs, kind, size)
    decreases |rs|
  {
    if rs != [] {
      var r := rs[0];
      assert RecordOk(r);
      var next := SearchPast(p, at, length, r, RecordsBytes(rs[1..]), |rs|, kind, size);
      SearchIsFirst(p, next, length, rs[1..], kind, size);
    }
  }

  lemma SearchPast(p: Memory, at: nat, length: nat, r: Record, rest: seq<Byte>, n: nat, kind: nat, size: nat)
    returns (next: nat)
    requires n > 0 && RecordOk(r) && Holds(p, at, NameBytes(r.name) + (FixedBytes(r) + (r.data + rest)))
    requires at + |NameBytes(r.name) + (FixedBytes(r) + (r.data + rest))| <= length
    ensures Holds(p, next, rest) && next + |rest| <= length
    ensures Read(p, Search(p, at, length, n, kind, size), size) ==
            if r.kind == kind && |r.data| == size then Some(r.data)
            else Read(p, Search(p, next, length, n - 1, kind, size), size)
  {
    var fixed := RecordMet(p, at, length, r, rest);
    SearchStep(p, at, length, n, kind, size, fixed, r.data);
    next := fixed + 10 + |r.data|;
  }

  lemma RecordMet(p: Memory, at: nat, length: nat, r: Record, rest: seq<Byte>) returns (fixed: nat)
    requires RecordOk(r) && Holds(p, at, NameBytes(r.name) + (FixedBytes(r) + (r.data + rest)))
    requires at + |NameBytes(r.name) + (FixedBytes(r) + (r.data + rest))| <= length
    ensures at < fixed == Skip(p, at, length) && fixed + 10 + |r.data| + |rest| <= length
    ensures Word16(p, fixed) == r.kind && Word16(p, fixed + 8) == |r.data|
    ensures Slice(p, fixed + 10, |r.data|) == r.data && Holds(p, fixed + 10 + |r.data|, rest)
  {
    HoldsParts(p, at, NameBytes(r.name), FixedBytes(r) + (r.data + rest));
    SkipLands(p, at, length, r.name);
    fixed := at + |NameBytes(r.name)|;
    RecordRead(p, fixed, r, rest);
  }

  lemma RecordRead(p: Memory, fixed: nat, r: Record, rest: seq<Byte>)
    requires RecordOk(r) && Holds(p, fixed, FixedBytes(r) + (r.data + rest))
    ensures Word16(p, fixed) == r.kind && Word16(p, fixed + 8) == |r.data| && |FixedBytes(r)| == 10
    ensures Slice(p, fixed + 10, |r.data|) == r.data && Holds(p, fixed + 10 + |r.data|, rest)
  {
    HoldsParts(p, fixed, FixedBytes(r), r.data + rest);
    FixedRead(p, fixed, r);
    HoldsParts(p, fixed + 10, r.data, rest);
  }

  lemma HeaderRead(p: Memory, m: Message)
    requires MessageOk(m) && Holds(p, 0, HeaderBytes(m))
    ensures Word16(p, 0) == m.id && Word16(p, 2) == m.flags && |HeaderBytes(m)| == 12
    ensures Word16(p, 4) == |m.questions| && Word16(p, 6) == |m.answers|
  {
    var id, flags := BigEndian(m.id, 2), BigEndian(m.flags, 2);
    var qs, rs := BigEndian(|m.questions|, 2), BigEndian(|m.answers|, 2);
    HoldsParts(p, 0, id + flags + qs + rs, m.counts);
    HoldsParts(p, 0, id + flags + qs, rs);
    HoldsParts(p, 0, id + flags, qs);
    HoldsParts(p, 0, id, flags);
    HeldWord(p, 0, m.id);
    HeldWord(p, 2, m.flags);
    HeldWord(p, 4, |m.questions|);
    HeldWord(p, 6, |m.answers|);
  }

  /**
   On every well-formed message, compressed names included and whatever follows
   the answers, parsing gives the first record wanted, or none; a reported error
   gives none.
   */
  lemma ParseIsFirst(p: Memory, length: nat, m: Message, kind: nat, size: nat)
    requires MessageOk(m) && Holds(p, 0, MessageBytes(m)) && |MessageBytes(m)| <= length
    ensures Word16(p, 0) == m.id
    ensures Parse(p, length, kind, size) == if m.flags % 16 != 0 then None else First(m.answers, kind, size)
  {
    HoldsParts(p, 0, HeaderBytes(m), QuestionsBytes(m.questions) + RecordsBytes(m.answers));
    HeaderRead(p, m);
    SectionsRead(p, 12, length, m.questions, m.answers, kind, size);
  }

  lemma SectionsRead(p: Memory, at: nat, length: nat, qs: seq<Question>, rs: seq<Record>, kind: nat, size: nat)
    requires (forall q :: q in qs ==> QuestionOk(q)) && (forall r :: r in rs ==> RecordOk(r))
    requires Holds(p, at, QuestionsBytes(qs) + RecordsBytes(rs))
    requires at + |QuestionsBytes(qs) + RecordsBytes(rs)| <= length
    ensures Read(p, Search(p, SkipQuestions(p, at, length, |qs|), length, |rs|, kind, size), size) ==
            First(rs, kind, size)
  {
    HoldsParts(p, at, QuestionsBytes(qs), RecordsBytes(rs));
    QuestionsSkipped(p, at, length, qs);
    SearchIsFirst(p, at + |QuestionsBytes(qs)|, length, rs, kind, size);
  }

  // ---- the parsers ----

  method PassQuestions(p: Memory, length: nat, questions: nat) returns (at: nat)
    ensures at == SkipQuestions(p, 12, length, questions)
  {
    at := 12;
    var i := 0;
    while i < questions
      invariant 0 <= i <= questions
      invariant SkipQuestions(p, at, length, questions - i) == SkipQuestions(p, 12, length, questions)
    {
      at := SkipName(p, at, length);
      at, i := at + 4, i + 1;
    }
  }

  method SearchRecords(p: Memory, start: nat, length: nat, answers: nat, kind: nat, size: nat)
    returns (found: Option<nat>)
    ensures found == Search(p, start, length, answers, kind, size)
  {
    var at: nat, i := start, 0;
    while i < answers && at + 10 <= length
      invariant 0 <= i <= answers
      invariant Search(p, at, length, answers - i, kind, size) == Search(p, start, length, answers, kind, size)
    {
      var fixed := SkipName(p, at, length);
      assert Search(p, at, length, answers - i, kind, size) == SearchAt(p, fixed, length, answers - i, kind, size);
      var type_, len := Word16(p, fixed), Word16(p, fixed + 8);
      if type_ == kind && len == size && fixed + 10 + size <= length {
        return Some(fixed + 10);
      }
      at, i := fixed + 10 + len, i + 1;
    }
    return None;
  }

  method FindRecord(p: Memory, length: nat, kind: nat, size: nat) returns (found: Option<nat>)
    requires length >= 12
    ensures found == Locate(p, length, kind, size)
  {
    if Word16(p, 2) % 16 != 0 {
      return None;
    }
    var at := PassQuestions(p, length, Word16(p, 4));
    found := SearchRecords(p, at, length, Word16(p, 6), kind, size);
  }

  /** Four bytes as an address. */
  function Number(b: seq<Byte>): nat {
    if b == [] then 0 else Number(b[..|b| - 1]) * 256 + b[|b| - 1]
  }

  /** The first IPv4 address of an answer, or 0; and the id of the question it answers, if there is one to read. */
  method Answer(p: Memory, length: nat) returns (address: nat, id: Option<nat>)
    ensures id == if length < 12 then None else Some(Word16(p, 0))
    ensures address == match Parse(p, length, ADDRESS, 4) case None => 0 case Some(b) => Number(b)
  {
    if length < 12 {
      return 0, None;
    }
    id := Some(Word16(p, 0));
    var found := FindRecord(p, length, ADDRESS, 4);
    if found.None? {
      return 0, id;
    }
    var at := found.value;
    NumberOf(Slice(p, at, 4));
    address := p(at) as int * 0x100_0000 + p(at + 1) as int * 0x1_0000 + p(at + 2) as int * 0x100 + p(at + 3) as int;
  }

  lemma NumberOf(b: seq<Byte>)
    requires |b| == 4
    ensures Number(b) == b[0] as int * 0x100_0000 + b[1] as int * 0x1_0000 + b[2] as int * 0x100 + b[3] as int
  {
    assert b[..3][..2] == b[..2] && b[..2][..1] == b[..1] && b[..1][..0] == [];
    assert Number(b[..1]) == Number(b[..0]) * 256 + b[0];
    assert Number(b[..2]) == Number(b[..1]) * 256 + b[1];
    assert Number(b[..3]) == Number(b[..2]) * 256 + b[2];
  }

  /** The first IPv6 address of an answer, if any. */
  method Answer6(p: Memory, length: nat) returns (address: Option<seq<Byte>>, id: Option<nat>)
    ensures id == if length < 12 then None else Some(Word16(p, 0))
    ensures address == Parse(p, length, ADDRESS6, 16)
  {
    if length < 12 {
      return None, None;
    }
    id := Some(Word16(p, 0));
    var found := FindRecord(p, length, ADDRESS6, 16);
    if found.None? {
      return None, id;
    }
    address := Some(Slice(p, found.value, 16));
  }
}
