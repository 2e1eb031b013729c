/**
 The one's-complement checksum of RFC 1071, as the stack computes it for IP,
 ICMP, TCP and UDP: 16-bit big-endian words summed in a 32-bit register, the
 carries folded back in, the result complemented.
 */
module Checksum {
  import opened Bytes

  const ONES := 0xFFFF
  // The longest block whose sum cannot overflow the register.
  const MAX_BLOCK := 2 * 65537

  // ---- the reference: sums modulo 2^16 - 1 ----

  /** The unbounded sum of a block's words; an odd last byte is a word's high half. */
  function Words(data: seq<Byte>): nat {
    if data == [] then 0
    else if |data| == 1 then Word(data[0], 0)
    else Word(data[0], data[1]) + Words(data[2..])
  }

  /** One's-complement reduction: zero only for zero, otherwise the residue in 1..65535. */
  function Ones(n: nat): nat { if n == 0 then 0 else (n - 1) % ONES + 1 }

  // ---- folding ----

  function Fold(sum: nat): nat {
    if sum < 65536 then sum else Fold(sum % 65536 + sum / 65536)
  }

  lemma {:induction false} FoldIsOnes(sum: nat)
    ensures Fold(sum) == Ones(sum)
  {
    if sum >= 65536 {
      var next := sum % 65536 + sum / 65536;
      FoldIsOnes(next);
      assert sum == next + ONES * (sum / 65536);
      OnesPeriodic(next, sum / 65536);
    }
  }

  /** Adding multiples of 65535 to anything but zero changes nothing. */
  lemma OnesPeriodic(n: nat, q: nat)
    requires n > 0
    ensures Ones(n + ONES * q) == Ones(n)
  {
    ModPeriodic(n - 1, q);
  }

  lemma {:induction false} ModPeriodic(n: nat, q: nat)
    ensures (n + ONES * q) % ONES == n % ONES
  {
    if q > 0 {
      ModPeriodic(n, q - 1);
      assert n + ONES * q == n + ONES * (q - 1) + ONES;
    }
  }

  /** A sum checks out exactly when it is a nonzero multiple of 65535. */
  lemma OnesFullIff(n: nat)
    ensures Ones(n) == ONES <==> n > 0 && n % ONES == 0
  {
  }

  // ---- words of a block ----

  lemma {:induction false} WordsBound(data: seq<Byte>)
    ensures Words(data) <= ((|data| + 1) / 2) * 65535
  {
    if |data| >= 2 {
      WordsBound(data[2..]);
      assert (|data| + 1) / 2 == (|data[2..]| + 1) / 2 + 1;
    }
  }

  /** Blocks of any size the link carries, and far beyond, sum without overflow. */
  lemma NoOverflow(data: seq<Byte>)
    requires |data| <= MAX_BLOCK
    ensures Words(data) < WRAP
  {
    WordsBound(data);
    assert (|data| + 1) / 2 <= 65537;
  }

  lemma {:induction false} WordsConcat(a: seq<Byte>, b: seq<Byte>)
    requires |a| % 2 == 0
    ensures Words(a + b) == Words(a) + Words(b)
  {
    if a == [] {
      assert a + b == b;
    } else {
      assert (a + b)[2..] == a[2..] + b;
      WordsConcat(a[2..], b);
    }
  }

  /** `v` stored big-endian at `at`. */
  function Put16(block: seq<Byte>, at: nat, v: nat): seq<Byte>
    requires at + 2 <= |block| && v <= ONES
  {
    block[at := v / 256][at + 1 := v % 256]
  }

  function Get16(block: seq<Byte>, at: nat): nat
    requires at + 2 <= |block|
  {
    Word(block[at], block[at + 1])
  }

  /** Overwriting one aligned word changes the sum by the difference. */
  lemma {:induction false} WordsPut(block: seq<Byte>, at: nat, v: nat)
    requires at % 2 == 0 && at + 2 <= |block| && v <= ONES
    ensures Words(Put16(block, at, v)) == Words(block) - Get16(block, at) + v
    ensures Words(block) >= Get16(block, at)
  {
    var put := Put16(block, at, v);
    if at == 0 {
      assert put[2..] == block[2..];
    } else {
      WordsPut(block[2..], at - 2, v);
      assert put[2..] == Put16(block[2..], at - 2, v);
      assert Get16(block[2..], at - 2) == Get16(block, at);
    }
  }

  // ---- the checksum ----

  /** The checksum of a block short enough not to overflow. */
  function Sum(data: seq<Byte>): (c: nat)
    ensures c <= ONES
  {
    ONES - Ones(Words(data))
  }

  lemma AddMod(a: nat, b: nat)
    ensures (a % WRAP + b) % WRAP == (a + b) % WRAP
  {
    assert a == WRAP * (a / WRAP) + a % WRAP;
    assert a + b == WRAP * (a / WRAP) + (a % WRAP + b);
  }

  /** Adds a block's words to a register that wraps at 32 bits. */
  method AddWords(data: seq<Byte>, start: nat) returns (sum: nat)
    requires start < WRAP
    ensures sum == (start + Words(data)) % WRAP
  {
    sum := start;
    ghost var total: nat := start;
    var i := 0;
    while i + 1 < |data|
      invariant 0 <= i <= |data| && i % 2 == 0
      invariant sum == total % WRAP && total + Words(data[i..]) == start + Words(data)
    {
      assert data[i..][2..] == data[i+2..];
      var w := Word(data[i], data[i+1]);
      AddMod(total, w);
      sum := (sum + w) % WRAP;
      total := total + w;
      i := i + 2;
    }
    if |data| % 2 == 1 {
      var w := Word(data[|data| - 1], 0);
      AddMod(total, w);
      sum := (sum + w) % WRAP;
    }
  }

  /** Folds the carries back in until none is left, and complements. */
  method FoldAndFlip(start: nat) returns (c: nat)
    ensures Fold(start) <= ONES && c == ONES - Fold(start)
  {
    var sum := start;
    while sum / 65536 != 0
      invariant Fold(sum) == Fold(start)
      decreases sum
    {
      sum := sum % 65536 + sum / 65536;
    }
    c := ONES - sum;
  }

  lemma Unwrapped(data: seq<Byte>)
    ensures |data| <= MAX_BLOCK ==> Words(data) % WRAP == Words(data)
  {
    if |data| <= MAX_BLOCK {
      NoOverflow(data);
    }
  }

  /** The stack's checksum routine. */
  method Compute(data: seq<Byte>) returns (c: nat)
    ensures |data| <= MAX_BLOCK ==> c == Sum(data)
    ensures c == ONES - Ones(Words(data) % WRAP)
  {
    var sum := AddWords(data, 0);
    c := FoldAndFlip(sum);
    FoldIsOnes(sum);
    Unwrapped(data);
  }

  /** Writing the checksum into its zeroed field makes the whole block check out. */
  lemma ChecksOut(block: seq<Byte>, at: nat)
    requires at % 2 == 0 && at + 2 <= |block| && Get16(block, at) == 0
    ensures Sum(Put16(block, at, Sum(block))) == 0
    ensures Sum(block) == 0 ==> Sum(Put16(block, at, ONES)) == 0
  {
    var n := Words(block);
    WordsPut(block, at, Sum(block));
    WordsPut(block, at, ONES);
    if n == 0 {
    } else {
      assert n == ONES * ((n - 1) / ONES) + (n - 1) % ONES + 1;
      assert n + Sum(block) == ONES * ((n - 1) / ONES + 1);
      MultipleChecks((n - 1) / ONES + 1);
      if Sum(block) == 0 {
        MultipleChecks((n - 1) / ONES + 2);
        assert n + ONES == ONES * ((n - 1) / ONES + 2);
      }
    }
  }

  lemma MultipleChecks(q: nat)
    requires q > 0
    ensures Ones(ONES * q) == ONES
  {
    OnesPeriodic(ONES, q - 1);
    assert ONES * q == ONES + ONES * (q - 1);
  }

  /**
   What the check catches: changing one aligned word of a block that checks out
   goes unnoticed exactly when the word is 0x0000 for 0xFFFF or the reverse, and
   the block has not become all zeroes.
   */
  lemma MissesIff(block: seq<Byte>, at: nat, v: nat)
    requires at % 2 == 0 && at + 2 <= |block| && v <= ONES && Sum(block) == 0
    ensures var w := Get16(block, at);
            Sum(Put16(block, at, v)) == 0 <==>
              v == w || (((v == 0 && w == ONES) || (v == ONES && w == 0)) && Words(Put16(block, at, v)) > 0)
  {
    var w, n := Get16(block, at), Words(block);
    WordsPut(block, at, v);
    OnesFullIff(n);
    OnesFullIff(n - w + v);
    SameResidueIff(n, w, v);
  }

  /** Trading one word for another keeps a multiple of 65535 one exactly when they differ by nothing or by 65535. */
  lemma SameResidueIff(n: nat, w: nat, v: nat)
    requires n % ONES == 0 && w <= ONES && v <= ONES && w <= n
    ensures (n - w + v) % ONES == 0 <==> v == w || (v == 0 && w == ONES) || (v == ONES && w == 0)
  {
    var a := n / ONES;
    var m := n - w + v;
    var b := m / ONES;
    assert n == ONES * a && m == ONES * b + m % ONES;
    if m % ONES == 0 {
      assert v - w == ONES * (b - a);
      if b - a >= 2 || b - a <= -2 {
        assert false;
      }
    }
  }

  // ---- checksums over a header that is not in the packet ----

  /** Addresses, protocol and length, as section 3.1 of RFC 9293 lays them out for IPv4. */
  function PseudoHeader4(src: nat, dst: nat, protocol: nat, length: nat): (h: seq<Byte>)
    ensures |h| == 12
  {
    BigEndian(src, 4) + BigEndian(dst, 4) + BigEndian(protocol, 2) + BigEndian(length, 2)
  }

  /** The same for IPv6, section 8.1 of RFC 8200: sixteen-byte addresses and a 32-bit length. */
  function PseudoHeader6(src: seq<Byte>, dst: seq<Byte>, next: nat, length: nat): (h: seq<Byte>)
    requires |src| == 16 && |dst| == 16
    ensures |h| == 40
  {
    src + dst + BigEndian(length, 4) + BigEndian(next, 4)
  }

  lemma Words2(v: nat)
    requires v <= ONES
    ensures Words(BigEndian(v, 2)) == v
  {
    BigEndian2(v);
    assert BigEndian(v, 2)[2..] == [];
  }

  lemma Words4(v: nat)
    requires v < WRAP
    ensures Words(BigEndian(v, 4)) == v / 65536 + v % 65536
  {
    assert BigEndian(v, 4) == BigEndian(v / 256, 3) + [v % 256];
    assert BigEndian(v / 256, 3) == BigEndian(v / 256 / 256, 2) + [v / 256 % 256];
    assert v / 256 / 256 == v / 65536;
    var low := [v / 256 % 256, v % 256];
    assert BigEndian(v, 4) == BigEndian(v / 65536, 2) + low;
    Words2(v / 65536);
    WordsConcat(BigEndian(v / 65536, 2), low);
    assert low[2..] == [];
  }

  lemma PseudoConcat(src: seq<Byte>, dst: seq<Byte>, third: seq<Byte>, fourth: seq<Byte>)
    requires |src| % 2 == 0 && |dst| % 2 == 0 && |third| % 2 == 0
    ensures Words(src + dst + third + fourth) == Words(src) + Words(dst) + Words(third) + Words(fourth)
  {
    WordsConcat(src, dst);
    WordsConcat(src + dst, third);
    WordsConcat(src + dst + third, fourth);
  }

  lemma PseudoWords4(src: nat, dst: nat, protocol: nat, length: nat)
    requires src < WRAP && dst < WRAP && protocol <= ONES && length <= ONES
    ensures Words(PseudoHeader4(src, dst, protocol, length)) ==
            src / 65536 + src % 65536 + dst / 65536 + dst % 65536 + protocol + length
  {
    Words4(src);
    Words4(dst);
    Words2(protocol);
    Words2(length);
    PseudoConcat(BigEndian(src, 4), BigEndian(dst, 4), BigEndian(protocol, 2), BigEndian(length, 2));
  }

  lemma PseudoWords6(src: seq<Byte>, dst: seq<Byte>, next: nat, length: nat)
    requires |src| == 16 && |dst| == 16 && next <= ONES && length < WRAP
    ensures Words(PseudoHeader6(src, dst, next, length)) ==
            Words(src) + Words(dst) + length / 65536 + length % 65536 + next
  {
    Words4(length);
    Words4Small(next);
    PseudoConcat(src, dst, BigEndian(length, 4), BigEndian(next, 4));
  }

  lemma Words4Small(v: nat)
    requires v <= ONES
    ensures Words(BigEndian(v, 4)) == v
  {
    Words4(v);
    assert v / 65536 == 0 && v % 65536 == v;
  }

  lemma Joined(header: seq<Byte>, body: seq<Byte>)
    requires |header| % 2 == 0 && |header| + |body| <= MAX_BLOCK
    ensures Words(header) < WRAP && Words(header + body) == (Words(header) + Words(body)) % WRAP
  {
    NoOverflow(header);
    WordsConcat(header, body);
    NoOverflow(header + body);
  }

  /** Finishes a checksum whose register already holds the words of a header. */
  method Finish(start: nat, ghost header: seq<Byte>, body: seq<Byte>) returns (c: nat)
    requires |header| % 2 == 0 && |header| + |body| <= MAX_BLOCK && start == Words(header)
    ensures c == Sum(header + body)
  {
    Joined(header, body);
    var sum := AddWords(body, start);
    c := FoldAndFlip(sum);
    FoldIsOnes(sum);
  }

  /** TCP's checksum over IPv4 is the plain checksum of the pseudo-header followed by the segment. */
  method Tcp4(src: nat, dst: nat, segment: seq<Byte>) returns (c: nat)
    requires src < WRAP && dst < WRAP && |segment| < 65536
    ensures c == Sum(PseudoHeader4(src, dst, 6, |segment|) + segment)
  {
    var sum := src / 65536 + src % 65536 + dst / 65536 + dst % 65536 + 6 + |segment|;
    PseudoWords4(src, dst, 6, |segment|);
    c := Finish(sum, PseudoHeader4(src, dst, 6, |segment|), segment);
  }

  /** Over IPv6 ICMP, UDP and TCP share one routine. */
  method Over6(src: seq<Byte>, dst: seq<Byte>, next: nat, body: seq<Byte>) returns (c: nat)
    requires |src| == 16 && |dst| == 16 && next < 256 && |body| < 65536
    ensures c == Sum(PseudoHeader6(src, dst, next, |body|) + body)
  {
    var sum := AddAddresses(src, dst);
    sum := sum + |body| / 65536 + |body| % 65536 + next;
    PseudoWords6(src, dst, next, |body|);
    c := Finish(sum, PseudoHeader6(src, dst, next, |body|), body);
  }

  method AddAddresses(src: seq<Byte>, dst: seq<Byte>) returns (sum: nat)
    requires |src| == 16 && |dst| == 16
    ensures sum == Words(src) + Words(dst)
  {
    WordsConcat(src, dst);
    NoOverflow(src);
    NoOverflow(src + dst);
    sum := AddWords(src, 0);
    sum := AddWords(dst, sum);
  }

  lemma PutAfter(header: seq<Byte>, block: seq<Byte>, at: nat, v: nat)
    requires at + 2 <= |block| && v <= ONES
    ensures header + Put16(block, at, v) == Put16(header + block, |header| + at, v)
    ensures Get16(header + block, |header| + at) == Get16(block, at)
    ensures Get16(Put16(block, at, v), at) == v
  {
  }

  /**
   Fills in the checksum of a UDP datagram over IPv6. A computed zero is sent
   as all ones, and the receiver's check still comes out.
   */
  method Seal6(src: seq<Byte>, dst: seq<Byte>, body: seq<Byte>) returns (c: nat)
    requires |src| == 16 && |dst| == 16 && 8 <= |body| < 65536 && Get16(body, 6) == 0
    ensures 0 < c <= ONES
    ensures Sum(PseudoHeader6(src, dst, 17, |body|) + Put16(body, 6, c)) == 0
  {
    c := Over6(src, dst, 17, body);
    if c == 0 {
      c := ONES;
    }
    ghost var header := PseudoHeader6(src, dst, 17, |body|);
    PutAfter(header, body, 6, c);
    ChecksOut(header + body, 46);
  }

  lemma SealedLayout(head: seq<Byte>, payload: seq<Byte>, c: nat)
    requires |head| == 8 && c <= ONES
    ensures |head + payload| == 8 + |payload| && Get16(head + payload, 6) == Get16(head, 6)
    ensures Put16(head + payload, 6, c) == Put16(head, 6, c) + payload
  {
  }

  lemma PutKeeps(block: seq<Byte>, at: nat, v: nat, other: nat)
    requires at + 2 <= |block| && other + 2 <= |block| && v <= ONES
    ensures Get16(Put16(block, at, v), at) == v
    ensures other + 2 <= at || at + 2 <= other ==> Get16(Put16(block, at, v), other) == Get16(block, other)
  {
  }

  /** The header of a UDP datagram over IPv6: ports, length and a checksum that checks out. */
  method Udp6(src: seq<Byte>, dst: seq<Byte>, srcPort: nat, dstPort: nat, payload: seq<Byte>)
    returns (head: seq<Byte>)
    requires |src| == 16 && |dst| == 16 && srcPort <= ONES && dstPort <= ONES && |payload| <= 1400 - 8
    ensures |head| == 8 && Get16(head, 0) == srcPort && Get16(head, 2) == dstPort
    ensures Get16(head, 4) == 8 + |payload| && Get16(head, 6) != 0
    ensures Sum(PseudoHeader6(src, dst, 17, 8 + |payload|) + (head + payload)) == 0
  {
    var blank := Udp6Blank(srcPort, dstPort, 8 + |payload|);
    SealedLayout(blank, payload, 0);
    var c := Seal6(src, dst, blank + payload);
    SealedLayout(blank, payload, c);
    PutKeeps(blank, 6, c, 0);
    PutKeeps(blank, 6, c, 2);
    PutKeeps(blank, 6, c, 4);
    head := Put16(blank, 6, c);
  }

  function Udp6Blank(srcPort: nat, dstPort: nat, length: nat): (head: seq<Byte>)
    requires srcPort <= ONES && dstPort <= ONES && length <= ONES
    ensures |head| == 8
    ensures Get16(head, 0) == srcPort && Get16(head, 2) == dstPort && Get16(head, 4) == length && Get16(head, 6) == 0
  {
    [srcPort / 256, srcPort % 256, dstPort / 256, dstPort % 256, length / 256, length % 256, 0, 0]
  }
}
