/**
 The lines of the account database: colon-separated fields read into fixed
 buffers, decimal numbers and a hexadecimal digest, each with its inverse.
 Strings stand for the characters before a C string's terminator.
 */
module AccountLines {
  import opened Bytes
  import opened Wrappers

  const NAME_WIDTH := 32
  const HOME_WIDTH := 128
  const SALT_WIDTH := 32
  const FIELD_WIDTH := 64
  const HEX_WIDTH := 80
  const ITERATIONS := 4096
  const ORDINARY_END := 60000

  type U32 = v: int | 0 <= v < 0x1_0000_0000
  type Digest = d: seq<Byte> | |d| == 32 witness [0, 0, 0, 0, 0, 0, 0, 0, 0, 0, 0, 0, 0, 0, 0, 0,
                                                  0, 0, 0, 0, 0, 0, 0, 0, 0, 0, 0, 0, 0, 0, 0, 0]
  // Salt, password and iteration count to digest; what it computes does not matter here.
  type Hash = (string, string, nat) -> Digest

  datatype Entry = Entry(name: string, uid: U32, gid: U32, home: string, salt: string, iterations: U32, digest: Digest)

  // ---- fields ----

  predicate IsStop(c: char) { c == ':' || c == '\n' }

  predicate Clean(s: string) { forall i :: 0 <= i < |s| ==> !IsStop(s[i]) }

  /** How far a field reaches: to a colon, a newline or the end. */
  function Stop(line: string): (n: nat)
    ensures n <= |line| && Clean(line[..n]) && (n < |line| ==> IsStop(line[n]))
  {
    if line == [] || IsStop(line[0]) then 0 else 1 + Stop(line[1..])
  }

  /** The field a line starts with, cut to a buffer of `width` with its terminator. */
  function Field(line: string, width: nat): (f: string)
    requires width > 0
    ensures Clean(f) && |f| < width
  {
    line[..Min(Stop(line), width - 1)]
  }

  function Rest(line: string): (r: string)
    ensures |r| <= |line|
  {
    var n := Stop(line);
    if n < |line| && line[n] == ':' then line[n + 1..] else line[n..]
  }

  function Tail(line: string, k: nat): string
    decreases k
  {
    if k == 0 then line else Tail(Rest(line), k - 1)
  }

  function StopFrom(text: string, offset: nat, length: nat): (n: nat)
    requires offset <= length <= |text|
    ensures offset <= n <= length
  {
    offset + Stop(text[offset..length])
  }

  lemma StopOn(text: string, offset: nat, length: nat)
    requires offset <= length <= |text|
    ensures StopFrom(text, offset, length) ==
            if offset < length && !IsStop(text[offset]) then StopFrom(text, offset + 1, length) else offset
  {
    if offset < length {
      assert text[offset..length][1..] == text[offset + 1..length];
    }
  }

  /** As much of a field as its buffer takes. */
  function Kept(text: string, start: nat, offset: nat, width: nat): (r: string)
    requires start <= offset <= |text| && width > 0
    ensures |r| == Min(offset - start, width - 1)
  {
    text[start..start + Min(offset - start, width - 1)]
  }

  lemma KeptNext(text: string, start: nat, offset: nat, width: nat)
    requires start <= offset < |text| && width > 0
    ensures var kept := Kept(text, start, offset, width);
            Kept(text, start, offset + 1, width) == if |kept| + 1 < width then kept + [text[offset]] else kept
  {
  }

  lemma FieldFrom(text: string, start: nat, length: nat, width: nat)
    requires start <= length <= |text| && width > 0
    ensures var stop := StopFrom(text, start, length);
            var next := if stop < length && text[stop] == ':' then stop + 1 else stop;
            && Field(text[start..length], width) == Kept(text, start, stop, width)
            && Rest(text[start..length]) == text[next..length]
  {
    SliceOfSlice(text, start, length);
  }

  lemma SliceOfSlice<T>(s: seq<T>, i: nat, j: nat)
    requires i <= j <= |s|
    ensures forall k: nat :: k <= j - i ==> s[i..j][..k] == s[i..i + k] && s[i..j][k..] == s[i + k..j]
  {
  }

  method TakeField(text: string, start: nat, length: nat, width: nat) returns (out: string, next: nat)
    requires start <= length <= |text| && width > 0
    ensures start <= next <= length
    ensures out == Field(text[start..length], width) && text[next..length] == Rest(text[start..length])
  {
    var offset: nat := start;
    out := [];
    while offset < length && !IsStop(text[offset])
      invariant start <= offset <= length && StopFrom(text, offset, length) == StopFrom(text, start, length)
      invariant out == Kept(text, start, offset, width)
    {
      StopOn(text, offset, length);
      KeptNext(text, start, offset, width);
      if |out| + 1 < width {
        out := out + [text[offset]];
      }
      offset := offset + 1;
    }
    StopOn(text, offset, length);
    FieldFrom(text, start, length, width);
    next := if offset < length && text[offset] == ':' then offset + 1 else offset;
  }

  lemma {:induction false} StopAt(f: string, tail: string)
    requires Clean(f) && (tail == [] || IsStop(tail[0]))
    ensures Stop(f + tail) == |f|
  {
    if f == [] {
      assert f + tail == tail;
    } else {
      assert (f + tail)[1..] == f[1..] + tail;
      StopAt(f[1..], tail);
    }
  }

  /** As much of a field as a buffer of `width` keeps. */
  function Fit(f: string, width: nat): (r: string)
    requires width > 0
    ensures |r| < width && (|f| < width <==> r == f)
  {
    if |f| < width then f else f[..width - 1]
  }

  /** A clean field in front of a colon is read back, as far as it fits. */
  lemma FieldBack(f: string, tail: string, width: nat)
    requires Clean(f) && width > 0
    ensures Rest(f + (":" + tail)) == tail
    ensures Field(f + (":" + tail), width) == Fit(f, width)
  {
    StopAt(f, ":" + tail);
  }

  lemma LastBack(f: string, width: nat)
    requires Clean(f) && |f| < width
    ensures Field(f, width) == f
  {
    StopAt(f, []);
    assert f + [] == f;
  }

  // ---- numbers ----

  predicate IsDigit(c: char) { '0' <= c <= '9' }

  function ParseFrom(value: U32, text: string): U32
    decreases |text|
  {
    if text == [] || !IsDigit(text[0]) then value
    else ParseFrom((value * 10 + (text[0] - '0') as int) % WRAP, text[1..])
  }

  method ParseU32(text: string) returns (value: U32)
    ensures value == ParseFrom(0, text)
  {
    value := 0;
    var i := 0;
    while i < |text| && IsDigit(text[i])
      invariant 0 <= i <= |text| && ParseFrom(value, text[i..]) == ParseFrom(0, text)
    {
      assert text[i..][1..] == text[i + 1..];
      value := (value * 10 + (text[i] - '0') as int) % WRAP;
      i := i + 1;
    }
  }

  function DigitOf(d: nat): char
    requires d < 10
  {
    '0' + d as char
  }

  function Digits(v: nat): (s: string)
    ensures s != [] && Clean(s)
  {
    if v < 10 then [DigitOf(v)] else Digits(v / 10) + [DigitOf(v % 10)]
  }

  lemma {:induction false} ParseMore(value: U32, ds: string, d: nat)
    requires d < 10 && forall i :: 0 <= i < |ds| ==> IsDigit(ds[i])
    ensures ParseFrom(value, ds + [DigitOf(d)]) == (ParseFrom(value, ds) * 10 + d) % WRAP
    decreases |ds|
  {
    if ds == [] {
      assert ds + [DigitOf(d)] == [DigitOf(d)];
      assert [DigitOf(d)][1..] == [];
    } else {
      assert (ds + [DigitOf(d)])[1..] == ds[1..] + [DigitOf(d)];
      ParseMore((value * 10 + (ds[0] - '0') as int) % WRAP, ds[1..], d);
    }
  }

  lemma {:induction false} DigitsAreDigits(v: nat)
    ensures forall i :: 0 <= i < |Digits(v)| ==> IsDigit(Digits(v)[i])
  {
    if v >= 10 {
      DigitsAreDigits(v / 10);
    }
  }

  lemma TenTimes(v: U32)
    ensures (v / 10 * 10 + v % 10) % WRAP == v
  {
  }

  /** A number written in decimal reads back. */
  lemma {:induction false} NumberBack(v: U32)
    ensures ParseFrom(0, Digits(v)) == v
  {
    if v < 10 {
      ParseMore(0, [], v);
      assert [] + [DigitOf(v)] == Digits(v);
    } else {
      NumberBack(v / 10);
      DigitsAreDigits(v / 10);
      ParseMore(0, Digits(v / 10), v % 10);
      TenTimes(v);
    }
  }

  function Pow10(n: nat): nat { if n == 0 then 1 else 10 * Pow10(n - 1) }

  lemma {:induction false} DigitsShort(v: nat, n: nat)
    requires n > 0 && v < Pow10(n)
    ensures |Digits(v)| <= n
  {
    if v >= 10 {
      DigitsShort(v / 10, n - 1);
    }
  }

  lemma NumberFits(v: U32)
    ensures |Digits(v)| <= 10
  {
    assert Pow10(2) == 100 && Pow10(4) == 10000 && Pow10(6) == 1000000 && Pow10(8) == 100000000;
    assert Pow10(10) == 10000000000;
    DigitsShort(v, 10);
  }

  function Reversed(s: string): string { if s == [] then [] else Reversed(s[1..]) + [s[0]] }

  lemma {:induction false} ReversedMore(s: string, c: char)
    ensures Reversed(s + [c]) == [c] + Reversed(s)
  {
    if s == [] {
      assert s + [c] == [c] && [c][1..] == [];
    } else {
      assert (s + [c])[1..] == s[1..] + [c];
      ReversedMore(s[1..], c);
    }
  }

  method Reverse(s: string) returns (out: string)
    ensures out == Reversed(s)
  {
    out := [];
    var i := 0;
    assert s[..|s|] == s;
    while i < |s|
      invariant 0 <= i <= |s| && Reversed(s) == out + Reversed(s[..|s| - i])
    {
      var k := |s| - 1 - i;
      assert s[..k + 1] == s[..k] + [s[k]];
      ReversedMore(s[..k], s[k]);
      out := out + [s[k]];
      i := i + 1;
    }
    assert s[..0] == [];
  }

  /** Digits are produced from the last to the first, then turned round. */
  method PutU32(v: U32) returns (out: string)
    ensures out == Digits(v)
  {
    var digits: string, value := [DigitOf(v % 10)], v / 10;
    while value != 0
      invariant value >= 0
      invariant Digits(v) == (if value == 0 then [] else Digits(value)) + Reversed(digits)
    {
      ReversedMore(digits, DigitOf(value % 10));
      digits := digits + [DigitOf(value % 10)];
      value := value / 10;
    }
    out := Reverse(digits);
  }

  // ---- digests ----

  function HexValue(c: char): int {
    if '0' <= c <= '9' then (c - '0') as int
    else if 'a' <= c <= 'f' then (c - 'a') as int + 10
    else if 'A' <= c <= 'F' then (c - 'A') as int + 10
    else -1
  }

  function HexDigit(n: nat): (c: char)
    requires n < 16
    ensures HexValue(c) == n && !IsStop(c)
  {
    if n < 10 then '0' + n as char else 'a' + (n - 10) as char
  }

  function HexOf(d: seq<Byte>): (s: string)
    ensures |s| == 2 * |d| && Clean(s)
  {
    if d == [] then [] else [HexDigit(d[0] / 16), HexDigit(d[0] % 16)] + HexOf(d[1..])
  }

  function HexPair(high: char, low: char): Option<Byte> {
    if HexValue(high) < 0 || HexValue(low) < 0 then None else Some(HexValue(high) * 16 + HexValue(low))
  }

  /** `n` more bytes written in hexadecimal behind `done`, or nothing if one of them is not. */
  function ParseHex(done: seq<Byte>, hex: string, n: nat): (r: Option<seq<Byte>>)
    ensures r.Some? ==> |r.value| == |done| + n
    decreases n
  {
    if n == 0 then Some(done)
    else if |hex| < 2 then None
    else
      match HexPair(hex[0], hex[1])
      case None => None
      case Some(b) => ParseHex(done + [b], hex[2..], n - 1)
  }

  lemma PairBack(b: Byte)
    ensures HexPair(HexDigit(b / 16), HexDigit(b % 16)) == Some(b)
  {
  }

  lemma {:induction false} HexBack(done: seq<Byte>, d: seq<Byte>)
    ensures ParseHex(done, HexOf(d), |d|) == Some(done + d)
    decreases |d|
  {
    if d == [] {
      assert done + d == done;
    } else {
      PairBack(d[0]);
      HexBack(done + [d[0]], d[1..]);
      var hex := HexOf(d);
      assert hex[0] == HexDigit(d[0] / 16) && hex[1] == HexDigit(d[0] % 16) && hex[2..] == HexOf(d[1..]);
      assert done + [d[0]] + d[1..] == done + d;
    }
  }

  method PutDigest(d: Digest) returns (out: string)
    ensures out == HexOf(d)
  {
    out := [];
    var i := 0;
    while i < 32
      invariant 0 <= i <= 32 && HexOf(d) == out + HexOf(d[i..])
    {
      assert d[i..][1..] == d[i + 1..];
      out := out + [HexDigit(d[i] / 16), HexDigit(d[i] % 16)];
      i := i + 1;
    }
  }

  function HexFrom(out: seq<Byte>, hex: string, i: nat): Option<seq<Byte>>
    requires i <= 32 && 2 * i <= |hex|
  {
    ParseHex(out, hex[2 * i..], 32 - i)
  }

  lemma HexOn(out: seq<Byte>, hex: string, i: nat)
    requires i < 32 && 2 * i <= |hex|
    ensures |hex| < 2 * i + 2 ==> HexFrom(out, hex, i) == None
    ensures |hex| >= 2 * i + 2 ==>
              HexFrom(out, hex, i) ==
              match HexPair(hex[2 * i], hex[2 * i + 1])
              case None => None
              case Some(b) => HexFrom(out + [b], hex, i + 1)
  {
    if |hex| >= 2 * i + 2 {
      assert hex[2 * i..][2..] == hex[2 * i + 2..];
    }
  }

  method ParseDigest(hex: string) returns (r: Option<seq<Byte>>)
    ensures r == ParseHex([], hex, 32)
  {
    var out: seq<Byte>, i: nat := [], 0;
    assert hex[0..] == hex;
    while i < 32
      invariant i <= 32 && 2 * i <= |hex| && HexFrom(out, hex, i) == HexFrom([], hex, 0)
    {
      HexOn(out, hex, i);
      // The terminator is no digit, so a short string is refused.
      if |hex| < 2 * i + 2 {
        return None;
      }
      var b := HexPair(hex[2 * i], hex[2 * i + 1]);
      if b.None? {
        return None;
      }
      out := out + [b.value];
      i := i + 1;
    }
    r := Some(out);
  }

  // ---- lines ----

  /** A line as it is read: nothing if it has no name or no sound digest. */
  function Parsed(line: string): Option<Entry> {
    var name := Field(line, NAME_WIDTH);
    var digest := ParseHex([], Field(Tail(line, 6), HEX_WIDTH), 32);
    if name == [] || digest.None? then None
    else Some(Entry(name, NumberAt(line, 1), NumberAt(line, 2), Field(Tail(line, 3), HOME_WIDTH),
                    Field(Tail(line, 4), SALT_WIDTH), NumberAt(line, 5), digest.value))
  }

  function NumberAt(line: string, k: nat): U32 { ParseFrom(0, Field(Tail(line, k), FIELD_WIDTH)) }

  /** An account whose fields are free of separators and fit their buffers. */
  predicate Good(e: Entry) {
    && e.name != [] && Clean(e.name) && |e.name| < NAME_WIDTH
    && Clean(e.home) && |e.home| < HOME_WIDTH && Clean(e.salt) && |e.salt| < SALT_WIDTH
  }

  /** An account whose fields are free of separators, whatever their length. */
  predicate Tidy(e: Entry) { e.name != [] && Clean(e.name) && Clean(e.home) && Clean(e.salt) }

  /** What the buffers keep of an account. */
  function Shown(e: Entry): Entry {
    e.(name := Fit(e.name, NAME_WIDTH), home := Fit(e.home, HOME_WIDTH), salt := Fit(e.salt, SALT_WIDTH))
  }

  lemma GoodIff(e: Entry)
    ensures Good(e) <==> Tidy(e) && Shown(e) == e
    ensures Tidy(e) ==> Good(Shown(e))
  {
  }

  function Suffix(e: Entry, k: nat): string
    requires k <= 6
    decreases 6 - k
  {
    if k == 6 then HexOf(e.digest) else Column(e, k) + (":" + Suffix(e, k + 1))
  }

  function Column(e: Entry, k: nat): string
    requires k < 6
  {
    if k == 0 then e.name else if k == 1 then Digits(e.uid) else if k == 2 then Digits(e.gid)
    else if k == 3 then e.home else if k == 4 then e.salt else Digits(e.iterations)
  }

  /** A line as it is written, without its newline. */
  function Rendered(e: Entry): string { Suffix(e, 0) }

  /** Whatever is read is good. */
  lemma ParsedIsGood(line: string)
    ensures Parsed(line).Some? ==> Good(Parsed(line).value)
  {
  }

  lemma {:induction false} TailMore(line: string, k: nat)
    ensures Tail(line, k + 1) == Rest(Tail(line, k))
    decreases k
  {
    if k > 0 {
      TailMore(Rest(line), k - 1);
    }
  }

  lemma {:induction false} TailOfRendered(e: Entry, k: nat)
    requires k <= 6 && forall j: nat :: j < k ==> Clean(Column(e, j))
    ensures Tail(Rendered(e), k) == Suffix(e, k)
    decreases k
  {
    if k > 0 {
      TailOfRendered(e, k - 1);
      TailMore(Rendered(e), k - 1);
      RestOfSuffix(e, k - 1);
    }
  }

  lemma RestOfSuffix(e: Entry, j: nat)
    requires j < 6 && Clean(Column(e, j))
    ensures Rest(Suffix(e, j)) == Suffix(e, j + 1)
  {
    FieldBack(Column(e, j), Suffix(e, j + 1), 1);
  }

  lemma ColumnsClean(e: Entry)
    requires Tidy(e)
    ensures forall j: nat :: j < 6 ==> Clean(Column(e, j))
  {
  }

  lemma NumberColumnBack(e: Entry, k: nat, v: U32)
    requires k < 6 && (forall j: nat :: j <= k ==> Clean(Column(e, j))) && Column(e, k) == Digits(v)
    ensures NumberAt(Rendered(e), k) == v
  {
    TailOfRendered(e, k);
    NumberFits(v);
    FieldBack(Digits(v), Suffix(e, k + 1), FIELD_WIDTH);
    NumberBack(v);
  }

  lemma TextColumnBack(e: Entry, k: nat, width: nat)
    requires k < 6 && (forall j: nat :: j <= k ==> Clean(Column(e, j))) && width > 0
    ensures Field(Tail(Rendered(e), k), width) == Fit(Column(e, k), width)
  {
    TailOfRendered(e, k);
    FieldBack(Column(e, k), Suffix(e, k + 1), width);
  }

  /** Writing an account without separators and reading the line gives back what the buffers keep of it. */
  lemma RenderedBack(e: Entry)
    requires Tidy(e)
    ensures Parsed(Rendered(e)) == Some(Shown(e))
  {
    ColumnsClean(e);
    TextColumnBack(e, 0, NAME_WIDTH);
    NumberColumnBack(e, 1, e.uid);
    NumberColumnBack(e, 2, e.gid);
    TextColumnBack(e, 3, HOME_WIDTH);
    TextColumnBack(e, 4, SALT_WIDTH);
    NumberColumnBack(e, 5, e.iterations);
    TailOfRendered(e, 6);
    LastBack(HexOf(e.digest), HEX_WIDTH);
    HexBack([], e.digest);
    assert [] + e.digest == e.digest;
  }

  lemma {:induction false} HexShort(done: seq<Byte>, hex: string, n: nat)
    requires |hex| < 2 * n
    ensures ParseHex(done, hex, n) == None
    decreases n
  {
    if |hex| >= 2 && HexPair(hex[0], hex[1]).Some? {
      HexShort(done + [HexPair(hex[0], hex[1]).value], hex[2..], n - 1);
    }
  }

  // ---- home directories with colons ----

  /** Whether a string has at least `k` colons before any newline. */
  predicate Colons(s: string, k: nat)
    decreases k
  {
    k == 0 || (Stop(s) < |s| && s[Stop(s)] == ':' && Colons(Rest(s), k - 1))
  }

  lemma Split<T>(s: seq<T>, t: seq<T>, n: nat)
    requires n <= |s|
    ensures s + t == s[..n] + (s[n..] + t)
  {
  }

  lemma StopJoin(s: string, t: string)
    requires '\n' !in s
    ensures Stop(s + (":" + t)) == Stop(s) && (Stop(s) < |s| ==> s[Stop(s)] == ':')
  {
    var n := Stop(s);
    Split(s, ":" + t, n);
    assert n < |s| ==> s[n] in s;
    StopAt(s[..n], s[n..] + (":" + t));
  }

  lemma SlicesJoin<T>(s: seq<T>, t: seq<T>, n: nat)
    requires n <= |s|
    ensures (s + t)[..n] == s[..n] && (s + t)[n..] == s[n..] + t
  {
  }

  /** What stands in front of a further colon is read as it is by itself. */
  lemma FieldJoin(s: string, t: string, width: nat)
    requires '\n' !in s && width > 0
    ensures Field(s + (":" + t), width) == Field(s, width)
  {
    StopJoin(s, t);
    SlicesJoin(s, ":" + t, Min(Stop(s), width - 1));
  }

  lemma RestJoin(s: string, t: string)
    requires '\n' !in s
    ensures Stop(s) < |s| ==> s[Stop(s)] == ':' && Rest(s + (":" + t)) == Rest(s) + (":" + t) && '\n' !in Rest(s)
    ensures Stop(s) == |s| ==> Rest(s + (":" + t)) == t && Rest(s) == []
  {
    var n := Stop(s);
    StopJoin(s, t);
    if n < |s| {
      SlicesJoin(s, ":" + t, n + 1);
    } else {
      SlicesJoin(s, ":" + t, n);
      assert (s + (":" + t))[n + 1..] == t;
    }
  }

  lemma {:induction false} TailJoin(s: string, t: string, k: nat)
    requires '\n' !in s && Colons(s, k)
    ensures Tail(s + (":" + t), k) == Tail(s, k) + (":" + t) && '\n' !in Tail(s, k)
    decreases k
  {
    if k > 0 {
      RestJoin(s, t);
      TailJoin(Rest(s), t, k - 1);
    }
  }

  lemma {:induction false} TailShort(s: string, k: nat)
    requires '\n' !in s && !Colons(s, k)
    ensures Tail(s, k) == []
    decreases k
  {
    RestJoin(s, []);
    if Stop(s) < |s| {
      TailShort(Rest(s), k - 1);
    } else {
      TailEmpty(k - 1);
    }
  }

  lemma {:induction false} TailEmpty(k: nat)
    ensures Tail([], k) == []
    decreases k
  {
    if k > 0 {
      TailEmpty(k - 1);
    }
  }

  /** The same, whatever it is that is dropped each time. */
  function Dropped(line: string, k: nat, rest: string -> string): string
    decreases k
  {
    if k == 0 then line else Dropped(rest(line), k - 1, rest)
  }

  lemma {:induction false} DroppedTwice(line: string, j: nat, k: nat, rest: string -> string)
    ensures Dropped(line, j + k, rest) == Dropped(Dropped(line, j, rest), k, rest)
    decreases j
  {
    if j > 0 {
      DroppedTwice(rest(line), j - 1, k, rest);
    }
  }

  lemma {:induction false} TailDropped(line: string, k: nat)
    ensures Tail(line, k) == Dropped(line, k, Rest)
    decreases k
  {
    if k > 0 {
      TailDropped(Rest(line), k - 1);
    }
  }

  lemma TailTail(line: string, rest: string, j: nat, k: nat)
    requires rest == Tail(line, j)
    ensures Tail(line, j + k) == Tail(rest, k)
  {
    TailDropped(line, j + k);
    TailDropped(line, j);
    TailDropped(rest, k);
    DroppedTwice(line, j, k, Rest);
  }

  function HomeDigest(home: string): (d: Option<seq<Byte>>)
    ensures d.Some? ==> |d.value| == 32
  {
    ParseHex([], Field(Tail(home, 3), HEX_WIDTH), 32)
  }

  /** A home directory behind which the line can still be read: without colons, or with a digest of its own behind the third. */
  predicate Legible(home: string) { Clean(home) || HomeDigest(home).Some? }

  /** How an account's line is read: with colons in the home directory, salt, iterations and digest are taken from there. */
  function ReadAs(e: Entry): Option<Entry> {
    if Clean(e.home) then Some(Shown(e))
    else if HomeDigest(e.home).None? then None
    else
      Some(Entry(Fit(e.name, NAME_WIDTH), e.uid, e.gid, Field(e.home, HOME_WIDTH),
                 Field(Tail(e.home, 1), SALT_WIDTH), NumberAt(e.home, 2), HomeDigest(e.home).value))
  }

  /** A name, a salt and a home directory that stay on their line, and only the last may hold colons. */
  predicate OneLine(e: Entry) {
    e.name != [] && Clean(e.name) && Clean(e.salt) && |e.salt| < SALT_WIDTH && '\n' !in e.home
  }

  lemma FieldOfTail(s: string, t: string, k: nat, width: nat)
    requires '\n' !in s && Colons(s, k) && width > 0
    ensures Field(Tail(s + (":" + t), k), width) == Field(Tail(s, k), width)
  {
    TailJoin(s, t, k);
    FieldJoin(Tail(s, k), t, width);
  }

  lemma HomeTail(e: Entry)
    requires OneLine(e)
    ensures Tail(Rendered(e), 3) == e.home + (":" + Suffix(e, 4))
  {
    TailOfRendered(e, 3);
  }

  lemma ColumnsFrom(line: string, j: nat, front: string, back: string, k: nat, width: nat)
    requires Tail(line, j) == front + (":" + back) && '\n' !in front && Colons(front, k) && width > 0
    ensures Field(Tail(line, j + k), width) == Field(Tail(front, k), width)
  {
    TailTail(line, front + (":" + back), j, k);
    FieldOfTail(front, back, k, width);
  }

  /** The columns from the home directory on, when it has enough colons for all of them. */
  lemma HomeColumns(e: Entry, k: nat, width: nat)
    requires OneLine(e) && k <= 3 && Colons(e.home, k) && width > 0
    ensures Field(Tail(Rendered(e), 3 + k), width) == Field(Tail(e.home, k), width)
  {
    HomeTail(e);
    ColumnsFrom(Rendered(e), 3, e.home, Suffix(e, 4), k, width);
  }

  /** With one colon or two the columns behind move up by as many. */
  lemma ShortTail(s: string, t: string)
    requires '\n' !in s && Stop(s) < |s| && !Colons(s, 3)
    ensures Tail(s + (":" + t), 3) == if Colons(s, 2) then t else Rest(t)
  {
    RestJoin(s, t);
    var one := Rest(s);
    RestJoin(one, t);
    assert Colons(s, 2) == (Stop(one) < |one|);
    if Stop(one) < |one| {
      RestJoin(Rest(one), t);
      assert !Colons(Rest(one), 1);
    }
  }

  lemma SevenColumns(e: Entry)
    requires OneLine(e) && Stop(e.home) < |e.home| && !Colons(e.home, 3)
    ensures Tail(Rendered(e), 6) == if Colons(e.home, 2) then Suffix(e, 4) else Suffix(e, 5)
  {
    HomeTail(e);
    TailTail(Rendered(e), e.home + (":" + Suffix(e, 4)), 3, 3);
    ShortTail(e.home, Suffix(e, 4));
    RestOfSuffix(e, 4);
  }

  lemma ShortField(f: string, tail: string)
    requires Clean(f) && |f| < 64
    ensures ParseHex([], Field(f + (":" + tail), HEX_WIDTH), 32).None?
  {
    FieldBack(f, tail, HEX_WIDTH);
    HexShort([], f, 32);
  }

  lemma StopsEarly(s: string)
    ensures Stop(s) < |s| <==> !Clean(s)
  {
    assert s[..|s|] == s;
  }

  /** So that the salt or the iteration count is read for the digest. */
  lemma NoDigest(e: Entry)
    requires OneLine(e) && !Clean(e.home) && !Colons(e.home, 3)
    ensures ParseHex([], Field(Tail(Rendered(e), 6), HEX_WIDTH), 32).None?
  {
    StopsEarly(e.home);
    SevenColumns(e);
    NumberFits(e.iterations);
    ShortField(e.salt, Suffix(e, 5));
    ShortField(Digits(e.iterations), Suffix(e, 6));
  }

  /** Writing an account and reading the line, whatever colons its home directory holds. */
  lemma RenderedReads(e: Entry)
    requires OneLine(e)
    ensures Parsed(Rendered(e)) == ReadAs(e)
    ensures ReadAs(e).Some? <==> Legible(e.home)
  {
    if Clean(e.home) {
      RenderedBack(e);
    } else {
      TextColumnBack(e, 0, NAME_WIDTH);
      if Colons(e.home, 3) {
        FrontColumns(e);
        HomeColumn(e);
        ColonColumns(e);
      } else {
        NoDigest(e);
        TailShort(e.home, 3);
        HexShort([], [], 32);
      }
    }
  }

  lemma FrontColumns(e: Entry)
    requires OneLine(e)
    ensures NumberAt(Rendered(e), 1) == e.uid && NumberAt(Rendered(e), 2) == e.gid
  {
    assert forall j: nat :: j <= 2 ==> Clean(Column(e, j));
    NumberColumnBack(e, 1, e.uid);
    NumberColumnBack(e, 2, e.gid);
  }

  lemma HomeColumn(e: Entry)
    requires OneLine(e)
    ensures Field(Tail(Rendered(e), 3), HOME_WIDTH) == Field(e.home, HOME_WIDTH)
  {
    HomeTail(e);
    FieldJoin(e.home, Suffix(e, 4), HOME_WIDTH);
  }

  lemma ColonColumns(e: Entry)
    requires OneLine(e) && Colons(e.home, 3)
    ensures Field(Tail(Rendered(e), 4), SALT_WIDTH) == Field(Tail(e.home, 1), SALT_WIDTH)
    ensures NumberAt(Rendered(e), 5) == NumberAt(e.home, 2)
    ensures Field(Tail(Rendered(e), 6), HEX_WIDTH) == Field(Tail(e.home, 3), HEX_WIDTH)
  {
    assert Colons(e.home, 1) && Colons(e.home, 2);
    HomeColumns(e, 1, SALT_WIDTH);
    HomeColumns(e, 2, FIELD_WIDTH);
    HomeColumns(e, 3, HEX_WIDTH);
  }
}
