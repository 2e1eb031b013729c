/**
 The account file read as a table: its lines, the accounts among them, and the
 uids they take. A line that cannot be read is no account, but it is still there.
 */
module AccountFile {
  import opened AccountLines
  import opened Wrappers

  // ---- the file as a table ----

  function LineEnd(text: string): (n: nat)
    ensures n <= |text| && '\n' !in text[..n] && (n < |text| ==> text[n] == '\n')
  {
    if text == [] || text[0] == '\n' then 0 else 1 + LineEnd(text[1..])
  }

  function Line(text: string): string { text[..LineEnd(text)] }

  function After(text: string): (r: string)
    requires text != []
    ensures |r| < |text|
  {
    if LineEnd(text) < |text| then text[LineEnd(text) + 1..] else []
  }

  function Lines(text: string): seq<string>
    decreases |text|
  {
    if text == [] then [] else [Line(text)] + Lines(After(text))
  }

  function Readable(lines: seq<string>, read: string -> Option<Entry>): seq<Entry> {
    if lines == [] then [] else One(read(lines[0])) + Readable(lines[1..], read)
  }

  function One<T>(r: Option<T>): seq<T> { if r.Some? then [r.value] else [] }

  /** The accounts a file holds: its lines that can be read, in order. */
  function Entries(text: string): seq<Entry> { Readable(Lines(text), Parsed) }

  /** Every line is an account. */
  predicate AllParse(text: string) { AllRead(Lines(text), Parsed) }

  predicate AllRead(lines: seq<string>, read: string -> Option<Entry>) {
    forall l :: l in lines ==> read(l).Some?
  }

  predicate Terminated(text: string) { text == [] || text[|text| - 1] == '\n' }

  lemma {:induction false} LineEndJoin(text: string, more: string)
    requires LineEnd(text) < |text|
    ensures LineEnd(text + more) == LineEnd(text)
  {
    if text[0] != '\n' {
      assert (text + more)[1..] == text[1..] + more;
      LineEndJoin(text[1..], more);
    }
  }

  lemma TerminatedLine(text: string)
    requires text != [] && Terminated(text)
    ensures LineEnd(text) < |text| && Terminated(After(text))
  {
    assert text[|text| - 1] in text;
    assert text[..|text|] == text;
  }

  lemma LinesFrom(text: string, n: nat, rest: string)
    requires n == LineEnd(text) < |text| && rest == text[n + 1..]
    ensures Lines(text) == [text[..n]] + Lines(rest)
  {
    assert Line(text) == text[..n] && After(text) == rest;
  }

  lemma SliceJoin<T>(a: seq<T>, b: seq<T>, n: nat)
    requires n < |a|
    ensures (a + b)[..n] == a[..n] && (a + b)[n + 1..] == a[n + 1..] + b
  {
  }

  lemma Regroup<T>(a: seq<T>, b: seq<T>, c: seq<T>)
    ensures a + (b + c) == a + b + c
  {
  }

  /** The first line of a text is the same whatever follows the text. */
  lemma FirstLine(text: string, more: string) returns (line: string, rest: string)
    requires text != [] && Terminated(text)
    ensures |rest| < |text| && Terminated(rest)
    ensures Lines(text) == [line] + Lines(rest) && Lines(text + more) == [line] + Lines(rest + more)
  {
    TerminatedLine(text);
    var n := LineEnd(text);
    line, rest := text[..n], After(text);
    LinesFrom(text, n, rest);
    LineEndJoin(text, more);
    SliceJoin(text, more, n);
    LinesFrom(text + more, n, rest + more);
  }

  lemma {:induction false} LinesJoin(text: string, more: string)
    requires Terminated(text)
    ensures Lines(text + more) == Lines(text) + Lines(more)
    decreases |text|
  {
    if text == [] {
      assert text + more == more;
      assert Lines(text) == [];
    } else {
      var line, rest := FirstLine(text, more);
      LinesJoin(rest, more);
      Regroup([line], Lines(rest), Lines(more));
    }
  }

  lemma {:induction false} ReadableJoin(lines: seq<string>, more: seq<string>, read: string -> Option<Entry>)
    ensures Readable(lines + more, read) == Readable(lines, read) + Readable(more, read)
  {
    if lines == [] {
      assert lines + more == more;
    } else {
      assert (lines + more)[1..] == lines[1..] + more;
      ReadableJoin(lines[1..], more, read);
      Regroup(One(read(lines[0])), Readable(lines[1..], read), Readable(more, read));
    }
  }

  /** Behind a final newline, appended text is read on its own. */
  lemma EntriesJoin(text: string, more: string)
    requires Terminated(text)
    ensures Entries(text + more) == Entries(text) + Entries(more)
    ensures AllParse(text) && AllParse(more) ==> AllParse(text + more)
  {
    LinesJoin(text, more);
    ReadableJoin(Lines(text), Lines(more), Parsed);
  }

  lemma {:induction false} LineEndOf(body: string, rest: string)
    requires '\n' !in body
    ensures LineEnd(body + ("\n" + rest)) == |body|
  {
    if body == [] {
      assert body + ("\n" + rest) == "\n" + rest;
    } else {
      assert (body + ("\n" + rest))[1..] == body[1..] + ("\n" + rest);
      LineEndOf(body[1..], rest);
    }
  }

  lemma LineInFront(body: string, rest: string)
    requires '\n' !in body
    ensures Lines(body + ("\n" + rest)) == [body] + Lines(rest)
  {
    LineEndOf(body, rest);
    var text := body + ("\n" + rest);
    assert Line(text) == body && After(text) == rest;
  }

  lemma {:induction false} SuffixClean(e: Entry, k: nat)
    requires '\n' !in e.name && '\n' !in e.home && '\n' !in e.salt && k <= 6
    ensures '\n' !in Suffix(e, k)
    decreases 6 - k
  {
    if k < 6 {
      SuffixClean(e, k + 1);
      assert '\n' !in Column(e, k);
    }
  }

  lemma {:induction false} ReadableGood(lines: seq<string>)
    ensures forall e :: e in Readable(lines, Parsed) ==> Good(e)
  {
    if lines != [] {
      ParsedIsGood(lines[0]);
      ReadableGood(lines[1..]);
    }
  }

  lemma WrittenLine(e: Entry, rest: string)
    requires '\n' !in e.name && '\n' !in e.home && '\n' !in e.salt
    ensures Lines(Rendered(e) + ("\n" + rest)) == [Rendered(e)] + Lines(rest)
  {
    SuffixClean(e, 0);
    LineInFront(Rendered(e), rest);
  }

  lemma OneReadable(line: string, read: string -> Option<Entry>)
    ensures Readable([line], read) == One(read(line))
  {
    assert [line][1..] == [];
  }

  lemma WrittenBack(e: Entry)
    requires Tidy(e)
    ensures Entries(Rendered(e) + "\n") == [Shown(e)] && AllParse(Rendered(e) + "\n")
  {
    var body := Rendered(e);
    WrittenLine(e, []);
    assert body + "\n" == body + ("\n" + []) && Lines(body + "\n") == [body];
    RenderedBack(e);
    OneReadable(body, Parsed);
  }

  lemma OnlyGoodBack(text: string, es: seq<Entry>, e: Entry)
    requires Entries(text) == es + [e]
    ensures Good(e)
  {
    ReadableGood(Lines(text));
    assert e in es + [e];
  }

  /** An account without separators, appended to a terminated file, adds what the buffers keep of it. */
  lemma AppendedShown(text: string, e: Entry)
    requires Terminated(text) && Tidy(e)
    ensures Entries(text + (Rendered(e) + "\n")) == Entries(text) + [Shown(e)]
    ensures AllParse(text) ==> AllParse(text + (Rendered(e) + "\n"))
  {
    WrittenBack(e);
    EntriesJoin(text, Rendered(e) + "\n");
  }

  /** Colons in its home directory or not, an account's line adds what it is read as, if it is read at all. */
  lemma AppendedRead(text: string, e: Entry)
    requires Terminated(text) && OneLine(e)
    ensures Entries(text + (Rendered(e) + "\n")) == Entries(text) + One(ReadAs(e))
    ensures ReadAs(e).Some? <==> Legible(e.home)
  {
    var body := Rendered(e);
    WrittenLine(e, []);
    assert body + "\n" == body + ("\n" + []) && Lines(body + "\n") == [body];
    RenderedReads(e);
    OneReadable(body, Parsed);
    EntriesJoin(text, body + "\n");
  }

  /** The text of an account up to its home directory. */
  function Front(e: Entry): string { e.name + (":" + (Digits(e.uid) + (":" + (Digits(e.gid) + ":")))) }

  lemma FrontOf(e: Entry)
    ensures Rendered(e) == Front(e) + (e.home + (":" + Suffix(e, 4)))
  {
    assert Suffix(e, 3) == e.home + (":" + Suffix(e, 4));
    assert Suffix(e, 2) == Digits(e.gid) + (":" + Suffix(e, 3));
    assert Suffix(e, 1) == Digits(e.uid) + (":" + Suffix(e, 2));
    assert Suffix(e, 0) == e.name + (":" + Suffix(e, 1));
  }

  lemma EntriesWithin(a: string, body: string, b: string)
    requires Terminated(a) && Terminated(body)
    ensures Entries(a + (body + b)) == Entries(a) + (Entries(body) + Entries(b))
  {
    EntriesJoin(a, body + b);
    EntriesJoin(body, b);
  }

  lemma Shuffle<T>(front: seq<T>, x: seq<T>, end: seq<T>, line: seq<T>, y: seq<T>, back: seq<T>)
    ensures front + ((x + (end + (line + (end + y)))) + back) + end ==
            (front + x + end) + ((line + end) + (y + back + end))
  {
  }

  /** Between newlines, a home directory can hold any account's line, and that account is then read. */
  lemma NewlineAdds(e: Entry, f: Entry, x: string, y: string)
    requires Good(f) && e.home == x + ("\n" + (Rendered(f) + ("\n" + y)))
    ensures f in Entries(Rendered(e) + "\n")
  {
    GoodIff(f);
    WrittenBack(f);
    FrontOf(e);
    var a, body, b := Front(e) + x + "\n", Rendered(f) + "\n", y + (":" + Suffix(e, 4)) + "\n";
    Shuffle(Front(e), x, "\n", Rendered(f), y, ":" + Suffix(e, 4));
    EntriesWithin(a, body, b);
    assert f in [f] + Entries(b);
  }

  /** An account appended to a terminated file is read back as it was exactly when it is good. */
  lemma AppendedBackIff(text: string, e: Entry)
    requires Terminated(text)
    ensures Entries(text + (Rendered(e) + "\n")) == Entries(text) + [e] <==> Good(e)
  {
    GoodIff(e);
    if Good(e) {
      AppendedShown(text, e);
    } else if Entries(text + (Rendered(e) + "\n")) == Entries(text) + [e] {
      OnlyGoodBack(text + (Rendered(e) + "\n"), Entries(text), e);
    }
  }

  // ---- looking up ----

  datatype Key = ByName(name: string) | ByUid(uid: U32)

  predicate Fits(e: Entry, key: Key) {
    match key case ByName(name) => e.name == name case ByUid(uid) => e.uid == uid
  }

  function First(es: seq<Entry>, key: Key): Option<Entry> {
    if es == [] then None else if Fits(es[0], key) then Some(es[0]) else First(es[1..], key)
  }

  lemma {:induction false} FirstIff(es: seq<Entry>, key: Key)
    ensures First(es, key).Some? <==> exists i :: 0 <= i < |es| && Fits(es[i], key)
    ensures First(es, key).Some? ==> First(es, key).value in es && Fits(First(es, key).value, key)
  {
    if es != [] {
      FirstIff(es[1..], key);
      if exists i :: 0 <= i < |es| && Fits(es[i], key) {
        var i :| 0 <= i < |es| && Fits(es[i], key);
        assert i > 0 ==> es[1..][i - 1] == es[i];
      }
      if exists i :: 0 <= i < |es[1..]| && Fits(es[1..][i], key) {
        var i :| 0 <= i < |es[1..]| && Fits(es[1..][i], key);
        assert es[i + 1] == es[1..][i];
      }
    }
  }

  // ---- uids ----

  /** The largest ordinary uid above `h`, over every line. */
  function Highest(text: string, h: nat): (r: nat)
    requires h < ORDINARY_END
    ensures r < ORDINARY_END
    decreases |text|
  {
    if text == [] then h
    else var uid := UidOf(Line(text)); Highest(After(text), if h < uid < ORDINARY_END then uid else h)
  }

  function UidOf(line: string): U32 { NumberAt(line, 1) }

  function PickUid(text: string): U32 { Highest(text, 999) + 1 }

  function HighestOf(uids: seq<U32>, h: nat): (r: nat)
    requires h < ORDINARY_END
    ensures r < ORDINARY_END
    decreases |uids|
  {
    if uids == [] then h else HighestOf(uids[1..], if h < uids[0] < ORDINARY_END then uids[0] else h)
  }

  function Uids(lines: seq<string>, uid: string -> U32): seq<U32> {
    if lines == [] then [] else [uid(lines[0])] + Uids(lines[1..], uid)
  }

  /** The uids of all lines, readable or not. */
  function LineUids(text: string): seq<U32> { Uids(Lines(text), UidOf) }

  lemma HighestFirst(uid: U32, uids: seq<U32>, h: nat)
    requires h < ORDINARY_END
    ensures HighestOf([uid] + uids, h) == HighestOf(uids, if h < uid < ORDINARY_END then uid else h)
  {
    assert ([uid] + uids)[1..] == uids;
  }

  lemma UidsFirst(line: string, lines: seq<string>, uid: string -> U32)
    ensures Uids([line] + lines, uid) == [uid(line)] + Uids(lines, uid)
  {
    assert ([line] + lines)[1..] == lines;
  }

  lemma {:induction false} HighestRead(text: string, h: nat)
    requires h < ORDINARY_END
    ensures Highest(text, h) == HighestOf(LineUids(text), h)
    decreases |text|
  {
    if text != [] {
      var uid, rest := UidOf(Line(text)), After(text);
      HighestRead(rest, if h < uid < ORDINARY_END then uid else h);
      UidsFirst(Line(text), Lines(rest), UidOf);
      HighestFirst(uid, LineUids(rest), h);
    }
  }

  lemma {:induction false} HighestBounds(uids: seq<U32>, h: nat)
    requires h < ORDINARY_END
    ensures h <= HighestOf(uids, h) && (HighestOf(uids, h) == h || HighestOf(uids, h) in uids)
    ensures forall u :: u in uids && u < ORDINARY_END ==> u <= HighestOf(uids, h)
    decreases |uids|
  {
    if uids != [] {
      HighestBounds(uids[1..], if h < uids[0] < ORDINARY_END then uids[0] else h);
      assert forall u :: u in uids <==> u == uids[0] || u in uids[1..];
    }
  }

  predicate Used(es: seq<Entry>, uid: nat) { exists i :: 0 <= i < |es| && es[i].uid == uid }

  lemma {:induction false} ReadableUids(lines: seq<string>, read: string -> Option<Entry>, uid: string -> U32, v: nat)
    requires forall l :: l in lines && read(l).Some? ==> read(l).value.uid == uid(l)
    requires Used(Readable(lines, read), v)
    ensures v in Uids(lines, uid)
  {
    var es, rest := Readable(lines, read), Readable(lines[1..], read);
    var i :| 0 <= i < |es| && es[i].uid == v;
    var k := |One(read(lines[0]))|;
    if i >= k {
      assert es[i] == rest[i - k];
      ReadableUids(lines[1..], read, uid, v);
    }
  }

  lemma EntryUids(text: string, v: nat)
    requires Used(Entries(text), v)
    ensures v in LineUids(text)
  {
    forall l | l in Lines(text) && Parsed(l).Some? ensures Parsed(l).value.uid == UidOf(l) {
    }
    ReadableUids(Lines(text), Parsed, UidOf, v);
  }

  function NextUid(uids: seq<U32>): U32 { HighestOf(uids, 999) + 1 }

  lemma PickUidIs(text: string)
    ensures PickUid(text) == NextUid(LineUids(text))
  {
    HighestRead(text, 999);
  }

  lemma NextUidUsedIff(es: seq<Entry>, uids: seq<U32>)
    requires forall v: nat :: Used(es, v) ==> v in uids
    ensures Used(es, NextUid(uids)) <==> ORDINARY_END - 1 in uids && Used(es, ORDINARY_END)
  {
    HighestBounds(uids, 999);
  }

  /** The uid picked for a new account is taken exactly when some line has 59999 and an account has 60000. */
  lemma PickUidUsedIff(text: string)
    ensures Used(Entries(text), PickUid(text)) <==>
            ORDINARY_END - 1 in LineUids(text) && Used(Entries(text), ORDINARY_END)
  {
    PickUidIs(text);
    forall v: nat | Used(Entries(text), v) ensures v in LineUids(text) {
      EntryUids(text, v);
    }
    NextUidUsedIff(Entries(text), LineUids(text));
  }
}
