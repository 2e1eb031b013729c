/**
 The picture converter: a PNG written with the Sub filter on every row, and a
 reader that undoes all five filters, steps over chunks it does not know and
 joins the image data of those it does (clauses 5.3 and 9.2 of the W3C PNG
 Specification, Second Edition). Deflate is taken as given, with its inverse.
 */
module Png {
  import opened Bytes
  import opened Wrappers

  type Coder = seq<Byte> -> seq<Byte>
  type Decoder = seq<Byte> -> Option<seq<Byte>>
  type Check = seq<Byte> -> nat

  datatype Image = Image(width: nat, height: nat, hasAlpha: bool, rows: seq<seq<Byte>>)

  // ---- filters ----

  function Distance(a: int, b: int): nat { if a < b then b - a else a - b }

  function Paeth(left: Byte, up: Byte, corner: Byte): (r: Byte)
    ensures r == left || r == up || r == corner
  {
    var estimate: int := left as int + up as int - corner as int;
    var a, b, c := Distance(estimate, left), Distance(estimate, up), Distance(estimate, corner);
    if a <= b && a <= c then left else if b <= c then up else corner
  }

  /** What each filter takes a byte to be; a filter it does not know predicts nothing. */
  function Predicted(filter: Byte, left: Byte, up: Byte, corner: Byte): Byte {
    if filter == 1 then left
    else if filter == 2 then up
    else if filter == 3 then (left as int + up as int) / 2
    else if filter == 4 then Paeth(left, up, corner)
    else 0
  }

  predicate Nearer(e: int, a: int, b: int) { (if a < e then e - a else a - e) < (if b < e then e - b else b - e) }

  /** Paeth's choice: of left, up and corner the one nearest to left + up - corner, the earlier on a tie. */
  lemma PaethNearest(left: Byte, up: Byte, corner: Byte)
    ensures var e, p := left as int + up as int - corner as int, Predicted(4, left, up, corner);
            && !Nearer(e, left, p) && !Nearer(e, up, p) && !Nearer(e, corner, p)
            && (p != left ==> Nearer(e, p, left))
            && (p != left && p != up ==> p == corner && Nearer(e, p, up))
  {
  }

  /** The average is rounded down. */
  lemma AverageFloor(left: Byte, up: Byte, corner: Byte)
    ensures var p := Predicted(3, left, up, corner) as int; 2 * p <= left as int + up as int < 2 * p + 2
  {
  }

  function Before(row: seq<Byte>, i: nat, bpp: nat): Byte
    requires i - bpp < |row| && bpp > 0
  {
    if i >= bpp then row[i - bpp] else 0
  }

  function Plus(a: Byte, b: Byte): Byte { (a as int + b as int) % 256 }

  function Minus(a: Byte, b: Byte): Byte { (a as int - b as int) % 256 }

  /** The reference: every byte less its prediction from the unfiltered bytes around it. */
  function Filtered(filter: Byte, row: seq<Byte>, previous: seq<Byte>, bpp: nat): (r: seq<Byte>)
    requires |previous| == |row| && bpp > 0
    ensures |r| == |row|
  {
    seq(|row|, i requires 0 <= i < |row| =>
      Minus(row[i], Predicted(filter, Before(row, i, bpp), previous[i], Before(previous, i, bpp))))
  }

  /** The first `n` bytes put back, each from those put back before it. */
  function Restored(filter: Byte, line: seq<Byte>, previous: seq<Byte>, bpp: nat, n: nat): (r: seq<Byte>)
    requires |previous| == |line| && n <= |line| && bpp > 0
    ensures |r| == n
    decreases n
  {
    if n == 0 then []
    else
      var done := Restored(filter, line, previous, bpp, n - 1);
      done + [Plus(line[n - 1], Predicted(filter, Before(done, n - 1, bpp), previous[n - 1], Before(previous, n - 1, bpp)))]
  }

  lemma PlusMinus(a: Byte, b: Byte)
    ensures Plus(Minus(a, b), b) == a
  {
  }

  /** Whatever the filter, the reader undoes it. */
  lemma {:induction false} FilterUndone(filter: Byte, row: seq<Byte>, previous: seq<Byte>, bpp: nat, n: nat)
    requires |previous| == |row| && n <= |row| && bpp > 0
    ensures Restored(filter, Filtered(filter, row, previous, bpp), previous, bpp, n) == row[..n]
    decreases n
  {
    if n > 0 {
      FilterUndone(filter, row, previous, bpp, n - 1);
      var i := n - 1;
      assert Before(row[..i], i, bpp) == Before(row, i, bpp);
      PlusMinus(row[i], Predicted(filter, Before(row, i, bpp), previous[i], Before(previous, i, bpp)));
      assert row[..n] == row[..i] + [row[i]];
    }
  }

  /** Puts a row back in place, left to right. */
  method Restore(filter: Byte, line: array<Byte>, previous: seq<Byte>, bpp: nat)
    requires |previous| == line.Length && bpp > 0
    modifies line
    ensures line[..] == Restored(filter, old(line[..]), previous, bpp, line.Length)
  {
    ghost var raw := line[..];
    var i := 0;
    while i < line.Length
      invariant 0 <= i <= line.Length && line[..i] == Restored(filter, raw, previous, bpp, i)
      invariant forall k :: i <= k < line.Length ==> line[k] == raw[k]
    {
      ghost var done := line[..i];
      var left: Byte := if i >= bpp then line[i - bpp] else 0;
      var corner: Byte := if i >= bpp then previous[i - bpp] else 0;
      assert left == Before(done, i, bpp);
      line[i] := Plus(line[i], Predicted(filter, left, previous[i], corner));
      assert line[..i + 1] == done + [line[i]];
      i := i + 1;
    }
    assert line[..] == line[..i];
  }

  /** Filters a row by what is left of each byte; from the right, as the writer does. */
  method FilterSub(row: seq<Byte>, bpp: nat, ghost previous: seq<Byte>) returns (filtered: seq<Byte>)
    requires bpp > 0 && |previous| == |row|
    ensures filtered == Filtered(1, row, previous, bpp)
  {
    filtered := row;
    var i := |row| - 1;
    while i >= bpp
      invariant bpp - 1 <= i < |row| || (i == |row| - 1 && |row| < bpp)
      invariant |filtered| == |row|
      invariant forall k :: 0 <= k <= i ==> filtered[k] == row[k]
      invariant forall k :: i < k < |row| && k >= bpp ==> filtered[k] == Minus(row[k], row[k - bpp])
    {
      filtered := filtered[i := Minus(row[i], row[i - bpp])];
      i := i - 1;
    }
    forall k | 0 <= k < |row| ensures filtered[k] == Filtered(1, row, previous, bpp)[k] {
    }
  }

  // ---- rows ----

  /** Rows behind one another, each with its filter in front. */
  function Body(filters: seq<Byte>, rows: seq<seq<Byte>>, previous: seq<Byte>, bpp: nat): seq<Byte>
    requires |filters| == |rows| && bpp > 0 && (forall r :: r in rows ==> |r| == |previous|)
    decreases |rows|
  {
    if rows == [] then []
    else [filters[0]] + Filtered(filters[0], rows[0], previous, bpp) + Body(filters[1..], rows[1..], rows[0], bpp)
  }

  /**
   Data that end inside a row fail, except that a last row without a prediction
   may lack its last pixel: the reader never looks at those bytes.
   */
  function Short(raw: seq<Byte>, stride: nat, bpp: nat, n: nat): Option<seq<seq<Byte>>> {
    if n == 1 && raw != [] && !(1 <= raw[0] <= 4) && |raw| - 1 + bpp >= stride then Some([raw[1..]]) else None
  }

  /** The reader's rows, or nothing if the data end too soon. */
  function Rows(raw: seq<Byte>, previous: seq<Byte>, bpp: nat, n: nat): Option<seq<seq<Byte>>>
    requires bpp > 0
    decreases n
  {
    if n == 0 then Some([])
    else if |raw| < 1 + |previous| then Short(raw, |previous|, bpp, n)
    else
      var row := Restored(raw[0], raw[1..1 + |previous|], previous, bpp, |previous|);
      match Rows(raw[1 + |previous|..], row, bpp, n - 1)
      case None => None
      case Some(rest) => Some([row] + rest)
  }

  lemma BodyFirst(filter: Byte, row: seq<Byte>, rest: seq<Byte>)
    ensures var raw := [filter] + row + rest; raw[0] == filter && raw[1..1 + |row|] == row && raw[1 + |row|..] == rest
  {
  }

  /** Whatever filter each row was given, the reader returns the rows. */
  lemma {:induction false} BodyRead(filters: seq<Byte>, rows: seq<seq<Byte>>, previous: seq<Byte>, bpp: nat)
    requires |filters| == |rows| && bpp > 0 && (forall r :: r in rows ==> |r| == |previous|)
    ensures Rows(Body(filters, rows, previous, bpp), previous, bpp, |rows|) == Some(rows)
    decreases |rows|
  {
    if rows != [] {
      var row := rows[0];
      assert row in rows;
      var rest := Body(filters[1..], rows[1..], row, bpp);
      BodyFirst(filters[0], Filtered(filters[0], row, previous, bpp), rest);
      FilterUndone(filters[0], row, previous, bpp, |row|);
      assert row[..|row|] == row;
      BodyRead(filters[1..], rows[1..], row, bpp);
      assert [row] + rows[1..] == rows;
    }
  }

  // ---- chunks ----

  function Number(b: seq<Byte>, at: nat): nat
    requires at + 4 <= |b|
  {
    Word(b[at], b[at + 1]) * 65536 + Word(b[at + 2], b[at + 3])
  }

  lemma NumberBack(v: nat)
    requires v < 0x1_0000_0000
    ensures Number(BigEndian(v, 4), 0) == v
  {
    BigEndian4(v);
    assert v == v / 256 * 256 + v % 256;
    assert v / 256 == v / 256 / 256 * 256 + v / 256 % 256;
    assert v / 256 / 256 == v / 256 / 256 / 256 * 256 + v / 256 / 256 % 256;
    assert v / 256 / 256 / 256 < 256;
  }

  datatype Chunk = Chunk(kind: seq<Byte>, payload: seq<Byte>)

  const HEADER: seq<Byte> := [73, 72, 68, 82]
  const DATA: seq<Byte> := [73, 68, 65, 84]
  const END: seq<Byte> := [73, 69, 78, 68]
  const SIGNATURE: seq<Byte> := [0x89, 80, 78, 71, 13, 10, 26, 10]

  ghost predicate ChunkOk(c: Chunk) {
    |c.kind| == 4 && |c.payload| < 0x1_0000_0000 && (c.kind == HEADER ==> |c.payload| >= 10)
  }

  function Framed(c: Chunk, crc: Check): seq<Byte> {
    BigEndian(|c.payload|, 4) + c.kind + c.payload + BigEndian(crc(c.kind + c.payload), 4)
  }

  function AllFramed(chunks: seq<Chunk>, crc: Check): seq<Byte> {
    if chunks == [] then [] else Framed(chunks[0], crc) + AllFramed(chunks[1..], crc)
  }

  // What the reader has gathered: the header's fields and the image data so far.
  datatype Found = Found(width: nat, height: nat, depth: nat, colour: nat, data: seq<Byte>)

  function Gathered(f: Found, kind: seq<Byte>, payload: seq<Byte>): Found
    requires kind == HEADER ==> |payload| >= 10
  {
    if kind == HEADER then
      Found(Number(payload, 0), Number(payload, 4), payload[8], payload[9], f.data)
    else if kind == DATA then f.(data := f.data + payload)
    else f
  }

  ghost predicate AllOk(chunks: seq<Chunk>) { forall c :: c in chunks ==> ChunkOk(c) }

  ghost function GatheredAll(f: Found, chunks: seq<Chunk>): Found
    requires AllOk(chunks)
    decreases |chunks|
  {
    if chunks == [] then f
    else assert ChunkOk(chunks[0]); GatheredAll(Gathered(f, chunks[0].kind, chunks[0].payload), chunks[1..])
  }

  function Cut(rest: seq<Byte>, n: nat): nat { Min(n, |rest|) }

  /** The reader's walk over the chunks of what is left of a file. */
  function Walk(rest: seq<Byte>, f: Found): Option<Found>
    decreases |rest|
  {
    if rest == [] then Some(f)
    else if |rest| < 8 || (rest[4..8] == HEADER && |rest| < 18) then None
    else Walk(rest[Cut(rest, 12 + Number(rest, 0))..], Met(rest, f))
  }

  function Met(rest: seq<Byte>, f: Found): Found
    requires |rest| >= 8 && (rest[4..8] == HEADER ==> |rest| >= 18)
  {
    if rest[4..8] == HEADER then Found(Number(rest, 8), Number(rest, 12), rest[16], rest[17], f.data)
    else if rest[4..8] == DATA then f.(data := f.data + rest[8..Cut(rest, 8 + Number(rest, 0))])
    else f
  }

  lemma FramedLayout(c: Chunk, check: seq<Byte>, more: seq<Byte>)
    requires |c.kind| == 4 && |check| == 4
    ensures var rest := BigEndian(|c.payload|, 4) + c.kind + c.payload + check + more;
            && |rest| == 12 + |c.payload| + |more|
            && rest[..4] == BigEndian(|c.payload|, 4) && rest[4..8] == c.kind
            && rest[8..8 + |c.payload|] == c.payload && rest[12 + |c.payload|..] == more
  {
  }

  lemma NumberSlice(b: seq<Byte>, at: nat, s: seq<Byte>, i: nat, n: nat)
    requires i + 4 <= n && at + n <= |b| && s == b[at..at + n]
    ensures Number(s, i) == Number(b, at + i)
  {
  }

  /** The reader takes from a chunk what its kind says and goes on behind its checksum. */
  lemma ChunkWalked(c: Chunk, crc: Check, more: seq<Byte>, f: Found)
    requires ChunkOk(c)
    ensures Walk(Framed(c, crc) + more, f) == Walk(more, Gathered(f, c.kind, c.payload))
  {
    var rest := Framed(c, crc) + more;
    var n := |c.payload|;
    FramedLayout(c, BigEndian(crc(c.kind + c.payload), 4), more);
    NumberBack(n);
    NumberSlice(rest, 0, BigEndian(n, 4), 0, 4);
    if c.kind == HEADER {
      NumberSlice(rest, 8, c.payload, 0, n);
      NumberSlice(rest, 8, c.payload, 4, n);
      assert rest[16] == c.payload[8] && rest[17] == c.payload[9];
    }
    assert Met(rest, f) == Gathered(f, c.kind, c.payload);
  }

  lemma {:induction false} AllWalked(chunks: seq<Chunk>, crc: Check, f: Found)
    requires AllOk(chunks)
    ensures Walk(AllFramed(chunks, crc), f) == Some(GatheredAll(f, chunks))
    decreases |chunks|
  {
    if chunks != [] {
      ChunkWalked(chunks[0], crc, AllFramed(chunks[1..], crc), f);
      AllWalked(chunks[1..], crc, Gathered(f, chunks[0].kind, chunks[0].payload));
    }
  }

  // ---- whole files ----

  const NOTHING := Found(0, 0, 0, 0, [])

  function Depth(colour: nat): nat { if colour == 6 then 4 else 3 }

  function Blank(n: nat): (r: seq<Byte>)
    ensures |r| == n
  {
    seq(n, _ => 0)
  }

  function Decoded(f: Found, inflate: Decoder): Option<Image> {
    if f.depth != 8 || (f.colour != 2 && f.colour != 6) then None
    else
      match inflate(f.data)
      case None => None
      case Some(raw) =>
        match Rows(raw, Blank(f.width * Depth(f.colour)), Depth(f.colour), f.height)
        case None => None
        case Some(rows) => Some(Image(f.width, f.height, f.colour == 6, rows))
  }

  function Read(file: seq<Byte>, inflate: Decoder): Option<Image> {
    match Walk(file[Cut(file, 8)..], NOTHING)
    case None => None
    case Some(f) => Decoded(f, inflate)
  }

  ghost predicate ImageOk(m: Image) {
    && m.width < 0x1_0000_0000 && m.height < 0x1_0000_0000 && |m.rows| == m.height
    && forall r :: r in m.rows ==> |r| == m.width * Depth(Colour(m))
  }

  function Colour(m: Image): Byte { if m.hasAlpha then 6 else 2 }

  ghost predicate Holds(f: Found, m: Image, filters: seq<Byte>, inflate: Decoder)
    requires ImageOk(m) && |filters| == |m.rows|
  {
    && f.width == m.width && f.height == m.height && f.depth == 8 && f.colour == Colour(m)
    && inflate(f.data) == Some(Body(filters, m.rows, Blank(m.width * Depth(Colour(m))), Depth(Colour(m))))
  }

  lemma HeldDecoded(f: Found, m: Image, filters: seq<Byte>, inflate: Decoder)
    requires ImageOk(m) && |filters| == |m.rows| && Holds(f, m, filters, inflate)
    ensures Decoded(f, inflate) == Some(m)
  {
    BodyRead(filters, m.rows, Blank(m.width * Depth(Colour(m))), Depth(Colour(m)));
  }

  lemma FileWalked(chunks: seq<Chunk>, crc: Check, inflate: Decoder, head: seq<Byte>)
    requires AllOk(chunks) && |head| == 8
    ensures Read(head + AllFramed(chunks, crc), inflate) == Decoded(GatheredAll(NOTHING, chunks), inflate)
  {
    AllWalked(chunks, crc, NOTHING);
    assert (head + AllFramed(chunks, crc))[8..] == AllFramed(chunks, crc);
  }

  /**
   However the file is cut into chunks, whatever else they hold and whatever
   filter each row has, the reader returns the picture.
   */
  lemma ReadAny(m: Image, chunks: seq<Chunk>, filters: seq<Byte>, crc: Check, inflate: Decoder, head: seq<Byte>)
    requires ImageOk(m) && |filters| == |m.rows| && |head| == 8 && AllOk(chunks)
    requires Holds(GatheredAll(NOTHING, chunks), m, filters, inflate)
    ensures Read(head + AllFramed(chunks, crc), inflate) == Some(m)
  {
    FileWalked(chunks, crc, inflate, head);
    HeldDecoded(GatheredAll(NOTHING, chunks), m, filters, inflate);
  }

  function HeaderOf(m: Image): seq<Byte> {
    BigEndian(m.width, 4) + BigEndian(m.height, 4) + [8, Colour(m), 0, 0, 0]
  }

  function Subs(n: nat): (r: seq<Byte>)
    ensures |r| == n && forall i :: 0 <= i < n ==> r[i] == 1
  {
    seq(n, _ => 1)
  }

  function SubBody(m: Image): seq<Byte>
    requires ImageOk(m)
  {
    Body(Subs(|m.rows|), m.rows, Blank(m.width * Depth(Colour(m))), Depth(Colour(m)))
  }

  function ChunksOf(m: Image, data: seq<Byte>): seq<Chunk> {
    [Chunk(HEADER, HeaderOf(m)), Chunk(DATA, data), Chunk(END, [])]
  }

  lemma HeaderBack(m: Image)
    requires m.width < 0x1_0000_0000 && m.height < 0x1_0000_0000
    ensures var h := HeaderOf(m);
            |h| == 13 && Number(h, 0) == m.width && Number(h, 4) == m.height && h[8] == 8 && h[9] == Colour(m)
  {
    var h := HeaderOf(m);
    NumberBack(m.width);
    NumberBack(m.height);
    NumberSlice(h, 0, BigEndian(m.width, 4), 0, 4);
    NumberSlice(h, 4, BigEndian(m.height, 4), 0, 4);
  }

  lemma ChunksGathered(m: Image, data: seq<Byte>)
    requires m.width < 0x1_0000_0000 && m.height < 0x1_0000_0000 && |data| < 0x1_0000_0000
    ensures AllOk(ChunksOf(m, data))
    ensures GatheredAll(NOTHING, ChunksOf(m, data)) == Found(m.width, m.height, 8, Colour(m), data)
  {
    HeaderBack(m);
    var chunks := ChunksOf(m, data);
    assert chunks[1..][1..] == [Chunk(END, [])] && chunks[1..][1..][1..] == [];
    var f := Found(m.width, m.height, 8, Colour(m), []);
    assert Gathered(NOTHING, HEADER, HeaderOf(m)) == f;
    assert Gathered(f, DATA, data) == f.(data := data);
    assert GatheredAll(NOTHING, chunks) == GatheredAll(f, chunks[1..]);
    assert GatheredAll(f, chunks[1..]) == GatheredAll(f.(data := data), chunks[1..][1..]);
    assert GatheredAll(f.(data := data), chunks[1..][1..]) == GatheredAll(f.(data := data), []);
  }

  /** A written picture, read, is the picture: size, alpha and every row. */
  lemma RoundTrip(m: Image, deflate: Coder, inflate: Decoder, crc: Check)
    requires ImageOk(m) && inflate(deflate(SubBody(m))) == Some(SubBody(m)) && |deflate(SubBody(m))| < 0x1_0000_0000
    ensures Read(SIGNATURE + AllFramed(ChunksOf(m, deflate(SubBody(m))), crc), inflate) == Some(m)
  {
    var data := deflate(SubBody(m));
    ChunksGathered(m, data);
    ReadAny(m, ChunksOf(m, data), Subs(|m.rows|), crc, inflate, SIGNATURE);
  }

  // ---- the converter ----

  /** Filters the rows one after another. */
  method FilterRows(m: Image) returns (body: seq<Byte>)
    requires ImageOk(m)
    ensures body == SubBody(m)
  {
    var bpp := if m.hasAlpha then 4 else 3;
    body := [];
    var i := 0;
    ghost var previous := Blank(m.width * bpp);
    ghost var subs := Subs(|m.rows|);
    while i < |m.rows|
      invariant 0 <= i <= |m.rows| && |previous| == m.width * bpp
      invariant SubBody(m) == body + Body(subs[i..], m.rows[i..], previous, bpp)
    {
      var row := m.rows[i];
      assert row in m.rows && subs[i..][0] == 1 && subs[i..][1..] == subs[i + 1..] && m.rows[i..][1..] == m.rows[i + 1..];
      var filtered := FilterSub(row, bpp, previous);
      ThreeParts(body, [1], filtered, Body(subs[i + 1..], m.rows[i + 1..], row, bpp));
      body := body + [1] + filtered;
      previous := row;
      i := i + 1;
    }
  }

  lemma ThreeParts<T>(a: seq<T>, b: seq<T>, c: seq<T>, d: seq<T>)
    ensures a + (b + c + d) == a + b + c + d
  {
  }

  method Write(m: Image, deflate: Coder, crc: Check) returns (file: seq<Byte>)
    requires ImageOk(m)
    ensures file == SIGNATURE + AllFramed(ChunksOf(m, deflate(SubBody(m))), crc)
  {
    var body := FilterRows(m);
    var data := deflate(body);
    var header := Framed(Chunk(HEADER, HeaderOf(m)), crc);
    var image := Framed(Chunk(DATA, data), crc);
    var end := Framed(Chunk(END, []), crc);
    FramedThree(Chunk(HEADER, HeaderOf(m)), Chunk(DATA, data), Chunk(END, []), crc);
    file := SIGNATURE + (header + (image + end));
  }

  lemma FramedThree(a: Chunk, b: Chunk, c: Chunk, crc: Check)
    ensures AllFramed([a, b, c], crc) == Framed(a, crc) + (Framed(b, crc) + Framed(c, crc))
  {
    FramedFirst(a, [b, c], crc);
    FramedFirst(b, [c], crc);
    FramedFirst(c, [], crc);
    assert [a] + [b, c] == [a, b, c] && [b] + [c] == [b, c] && [c] + [] == [c];
    assert Framed(c, crc) + [] == Framed(c, crc);
  }

  lemma FramedFirst(a: Chunk, rest: seq<Chunk>, crc: Check)
    ensures AllFramed([a] + rest, crc) == Framed(a, crc) + AllFramed(rest, crc)
  {
    assert ([a] + rest)[1..] == rest;
  }

  function WalkFrom(file: seq<Byte>, at: nat, f: Found): Option<Found>
    requires at <= |file|
  {
    Walk(file[at..], f)
  }

  /** A chunk that does not even hold its own head, or its picture header. */
  predicate Torn(file: seq<Byte>, at: nat)
    requires at < |file|
  {
    at + 8 > |file| || (file[at + 4..at + 8] == HEADER && at + 18 > |file|)
  }

  function NextChunk(file: seq<Byte>, at: nat): (n: nat)
    requires at + 8 <= |file|
    ensures at < n <= |file|
  {
    Min(at + 12 + Number(file, at), |file|)
  }

  lemma WalkOn(file: seq<Byte>, at: nat, f: Found)
    requires at < |file|
    ensures Torn(file, at) ==> WalkFrom(file, at, f) == None
    ensures !Torn(file, at) ==> WalkFrom(file, at, f) == WalkFrom(file, NextChunk(file, at), Met(file[at..], f))
  {
    var rest := file[at..];
    if at + 8 <= |file| {
      assert file[at + 4..at + 8] == rest[4..8] && Number(file, at) == Number(rest, 0);
      assert rest[Cut(rest, 12 + Number(rest, 0))..] == file[NextChunk(file, at)..];
    }
  }

  method MeetChunk(file: seq<Byte>, at: nat, start: Found) returns (f: Found)
    requires at < |file| && !Torn(file, at)
    ensures f == Met(file[at..], start)
  {
    f := start;
    ghost var rest := file[at..];
    var length := Number(file, at);
    var kind := file[at + 4..at + 8];
    assert kind == rest[4..8] && length == Number(rest, 0);
    if kind == HEADER {
      f := f.(width := Number(file, at + 8), height := Number(file, at + 12),
              depth := file[at + 16], colour := file[at + 17]);
    } else if kind == DATA {
      var end := Min(at + 8 + length, |file|);
      assert file[at + 8..end] == rest[8..Cut(rest, 8 + length)];
      f := f.(data := f.data + file[at + 8..end]);
    }
  }

  method WalkChunks(file: seq<Byte>) returns (found: Option<Found>)
    ensures found == WalkFrom(file, Cut(file, 8), NOTHING)
  {
    var at: nat, f := Cut(file, 8), NOTHING;
    while at < |file|
      invariant at <= |file| && WalkFrom(file, at, f) == WalkFrom(file, Cut(file, 8), NOTHING)
      decreases |file| - at
    {
      WalkOn(file, at, f);
      if Torn(file, at) {
        return None;
      }
      f := MeetChunk(file, at, f);
      at := NextChunk(file, at);
    }
    found := Some(f);
  }

  function RowsFrom(raw: seq<Byte>, at: nat, previous: seq<Byte>, bpp: nat, n: nat): Option<seq<seq<Byte>>>
    requires at <= |raw| && bpp > 0
  {
    Rows(raw[at..], previous, bpp, n)
  }

  function RowAt(raw: seq<Byte>, at: nat, previous: seq<Byte>, bpp: nat): (row: seq<Byte>)
    requires at + 1 + |previous| <= |raw| && bpp > 0
    ensures |row| == |previous|
  {
    Restored(raw[at], raw[at + 1..at + 1 + |previous|], previous, bpp, |previous|)
  }

  lemma RowsOn(raw: seq<Byte>, at: nat, previous: seq<Byte>, bpp: nat, n: nat)
    requires at <= |raw| && bpp > 0 && n > 0
    ensures at + 1 + |previous| > |raw| ==>
              RowsFrom(raw, at, previous, bpp, n) == Short(raw[at..], |previous|, bpp, n)
    ensures at + 1 + |previous| <= |raw| ==>
              RowsFrom(raw, at, previous, bpp, n) ==
              Joined([RowAt(raw, at, previous, bpp)],
                     RowsFrom(raw, at + 1 + |previous|, RowAt(raw, at, previous, bpp), bpp, n - 1))
  {
    var rest, stride := raw[at..], |previous|;
    if at + 1 + stride <= |raw| {
      assert rest[1..1 + stride] == raw[at + 1..at + 1 + stride] && rest[1 + stride..] == raw[at + 1 + stride..];
    }
  }

  method ReadRow(raw: seq<Byte>, at: nat, previous: seq<Byte>, bpp: nat) returns (row: seq<Byte>)
    requires at + 1 + |previous| <= |raw| && bpp > 0
    ensures row == RowAt(raw, at, previous, bpp)
  {
    var stride := |previous|;
    var line := new Byte[stride](k requires 0 <= k < stride => raw[at + 1 + k]);
    assert line[..] == raw[at + 1..at + 1 + stride];
    Restore(raw[at], line, previous, bpp);
    row := line[..];
  }

  method ReadRows(raw: seq<Byte>, stride: nat, bpp: nat, height: nat) returns (result: Option<seq<seq<Byte>>>)
    requires bpp > 0
    ensures result == RowsFrom(raw, 0, Blank(stride), bpp, height)
  {
    var rows: seq<seq<Byte>>, previous, at: nat, i: nat := [], Blank(stride), 0, 0;
    JoinedNone(RowsFrom(raw, 0, previous, bpp, height));
    while i < height
      invariant i <= height && at <= |raw| && |previous| == stride
      invariant Joined(rows, RowsFrom(raw, at, previous, bpp, height - i)) == RowsFrom(raw, 0, Blank(stride), bpp, height)
    {
      RowsOn(raw, at, previous, bpp, height - i);
      if at + 1 + stride > |raw| {
        if i + 1 == height && at < |raw| && !(1 <= raw[at] <= 4) && |raw| - at - 1 + bpp >= stride {
          assert raw[at..][1..] == raw[at + 1..];
          return Some(rows + [raw[at + 1..]]);
        }
        return None;
      }
      var row := ReadRow(raw, at, previous, bpp);
      JoinedMore(rows, row, RowsFrom(raw, at + 1 + stride, row, bpp, height - i - 1));
      rows, previous := rows + [row], row;
      at, i := at + 1 + stride, i + 1;
    }
    assert rows + [] == rows;
    result := Some(rows);
  }

  function Joined(done: seq<seq<Byte>>, rest: Option<seq<seq<Byte>>>): Option<seq<seq<Byte>>> {
    if rest.Some? then Some(done + rest.value) else None
  }

  lemma JoinedNone(rest: Option<seq<seq<Byte>>>)
    ensures Joined([], rest) == rest
  {
    if rest.Some? {
      assert [] + rest.value == rest.value;
    }
  }

  lemma JoinedMore(done: seq<seq<Byte>>, row: seq<Byte>, rest: Option<seq<seq<Byte>>>)
    ensures Joined(done, Joined([row], rest)) == Joined(done + [row], rest)
  {
    if rest.Some? {
      assert done + ([row] + rest.value) == done + [row] + rest.value;
    }
  }

  method ReadFile(file: seq<Byte>, inflate: Decoder) returns (image: Option<Image>)
    ensures image == Read(file, inflate)
  {
    var found := WalkChunks(file);
    if found.None? {
      return None;
    }
    var f := found.value;
    if f.depth != 8 || (f.colour != 2 && f.colour != 6) {
      return None;
    }
    var bpp := if f.colour == 6 then 4 else 3;
    var raw := inflate(f.data);
    if raw.None? {
      return None;
    }
    var rows := ReadRows(raw.value, f.width * bpp, bpp, f.height);
    assert raw.value[0..] == raw.value;
    if rows.None? {
      return None;
    }
    image := Some(Image(f.width, f.height, f.colour == 6, rows.value));
  }
}
