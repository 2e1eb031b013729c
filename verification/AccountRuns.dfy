/**
 What follows for whole runs of the account server from the file they start on
 and the requests alone, and how much room a rewritten file takes.
 */
module AccountRuns {
  import opened AccountLines
  import opened AccountFile
  import opened Accounts
  import opened Wrappers

  // ---- names and uids of a readable file ----

  lemma {:induction false} NamedRead(lines: seq<string>, user: string, read: string -> Option<Entry>, name: string -> string)
    requires AllRead(lines, read) && NamesAgree(lines, read, name)
    ensures LinesNamed(lines, user, name) == Named(Readable(lines, read), user)
  {
    if lines != [] {
      NamedRead(lines[1..], user, read, name);
      assert lines[0] in lines;
      NamedJoin(One(read(lines[0])), Readable(lines[1..], read), user);
      NamedOne(read(lines[0]).value, user);
    }
  }

  /** In a readable file with distinct names a user's line is the only one of its name. */
  lemma BearingOne(text: string, user: string)
    requires AllParse(text) && Distinct(Entries(text)) && First(Entries(text), ByName(user)).Some?
    ensures Bearing(text, user) == 1
  {
    ParsedNames(Lines(text));
    NamedRead(Lines(text), user, Parsed, NameOf);
    DistinctNamed(Entries(text), user);
    BearingSome(text, user);
  }

  /** The highest ordinary uid of a file. */
  function Top(text: string): (h: nat)
    ensures h < ORDINARY_END
  {
    HighestOf(LineUids(text), 999)
  }

  function Raised(h: nat, uid: nat): nat { if h < uid < ORDINARY_END then uid else h }

  lemma TopRead(text: string)
    requires AllParse(text)
    ensures LineUids(text) == TableUids(Entries(text))
  {
    forall l | l in Lines(text) && Parsed(l).Some? ensures Parsed(l).value.uid == UidOf(l) {
    }
    UidsRead(Lines(text), Parsed, UidOf);
  }

  lemma {:induction false} TableUidsMore(es: seq<Entry>, e: Entry)
    ensures TableUids(es + [e]) == TableUids(es) + [e.uid]
  {
    if es == [] {
      assert es + [e] == [e] && [e][1..] == [];
    } else {
      assert (es + [e])[1..] == es[1..] + [e];
      TableUidsMore(es[1..], e);
    }
  }

  lemma {:induction false} TableUidsAltered(hash: Hash, es: seq<Entry>, r: Request)
    requires r.Passwd?
    ensures TableUids(Altered(hash, es, r)) == TableUids(es)
  {
    if es != [] {
      assert Altered(hash, es, r)[1..] == Altered(hash, es[1..], r);
      TableUidsAltered(hash, es[1..], r);
    }
  }

  lemma {:induction false} HighestMore(uids: seq<U32>, u: U32, h: nat)
    requires h < ORDINARY_END
    ensures HighestOf(uids + [u], h) == Raised(HighestOf(uids, h), u)
    decreases |uids|
  {
    if uids == [] {
      assert uids + [u] == [u] && [u][1..] == [];
    } else {
      assert (uids + [u])[1..] == uids[1..] + [u];
      HighestMore(uids[1..], u, Raised(h, uids[0]));
    }
  }

  // ---- the requests ----

  predicate AllShort(requests: seq<Request>) {
    forall r :: r in requests && r.UserAdd? ==> |r.user| < NAME_WIDTH
  }

  /** How many of the requests leave the uid to the server. */
  function Picks(requests: seq<Request>): nat {
    if requests == [] then 0
    else (if requests[0].UserAdd? && requests[0].uid == 0 then 1 else 0) + Picks(requests[1..])
  }

  /** The highest ordinary uid, `h` or one the requests ask for. */
  function Peak(h: nat, requests: seq<Request>): (p: nat)
    ensures p >= h
    decreases |requests|
  {
    if requests == [] then h
    else Peak(if requests[0].UserAdd? then Raised(h, requests[0].uid) else h, requests[1..])
  }

  lemma {:induction false} PeakMore(h: nat, g: nat, requests: seq<Request>)
    requires h <= g
    ensures Peak(h, requests) <= Peak(g, requests) <= Peak(h, requests) + (g - h)
    decreases |requests|
  {
    if requests != [] {
      var r := requests[0];
      var h', g' := if r.UserAdd? then Raised(h, r.uid) else h, if r.UserAdd? then Raised(g, r.uid) else g;
      PeakMore(h', g', requests[1..]);
    }
  }

  /** There are uids enough below 60000 for all that are left to the server to pick. */
  predicate Roomy(h: nat, requests: seq<Request>) {
    Picks(requests) == 0 || Peak(h, requests) + Picks(requests) < ORDINARY_END
  }

  /** The highest ordinary uid after a request, by what became of it. */
  function TopNext(h: nat, r: Request, granted: bool): nat {
    if granted && r.UserAdd? then Raised(h, if r.uid == 0 then h + 1 else r.uid) else h
  }

  lemma RoomyNext(h: nat, requests: seq<Request>, granted: bool)
    requires requests != [] && Roomy(h, requests)
    ensures Roomy(TopNext(h, requests[0], granted), requests[1..])
  {
    var r, rest := requests[0], requests[1..];
    PeakMore(h, Raised(h, if r.UserAdd? then r.uid else 0), rest);
    PeakMore(h, h + 1, rest);
  }

  // ---- one request ----

  lemma UidStaysLeft(hash: Hash, text: string, r: Request)
    requires Adds(hash, text, r) && (r.uid == 0 ==> Top(text) + 1 < ORDINARY_END)
    ensures UidLeft(text, r)
  {
    HighestBounds(LineUids(text), 999);
  }

  lemma AddRaises(hash: Hash, text: string, r: Request)
    requires Adds(hash, text, r) && Sound(text) && Orderly(r)
    ensures Top(FileStep(hash, text, r).value) == Raised(Top(text), if r.uid == 0 then Top(text) + 1 else r.uid)
  {
    var next, e := FileStep(hash, text, r).value, NewEntry(hash, text, r);
    AddShown(hash, text, r);
    TopRead(text);
    TopRead(next);
    TableUidsMore(Entries(text), Shown(e));
    HighestMore(LineUids(text), e.uid, 999);
    PickUidIs(text);
  }

  lemma ChangeKeepsTop(hash: Hash, text: string, r: Request)
    requires Changes(hash, text, r) && Sound(text) && Orderly(r) && Distinct(Entries(text))
    ensures Bearing(text, r.user) == 1 && Top(FileStep(hash, text, r).value) == Top(text)
  {
    ChangeRewrites(hash, text, r);
    BearingOne(text, r.user);
    ChangeAltersOnlyIff(hash, text, r);
    TopRead(text);
    TopRead(FileStep(hash, text, r).value);
    TableUidsAltered(hash, Entries(text), r);
  }

  predicate Stays(text: string) { Sound(text) && Distinct(Entries(text)) }

  lemma AddStays(hash: Hash, text: string, r: Request)
    requires Adds(hash, text, r) && Stays(text) && Orderly(r) && |r.user| < NAME_WIDTH
    requires r.uid == 0 ==> Top(text) + 1 < ORDINARY_END
    ensures Stays(FileStep(hash, text, r).value)
  {
    StepTerminated(hash, text, r);
    AddShown(hash, text, r);
    UidStaysLeft(hash, text, r);
    AddDistinctIff(hash, text, r);
  }

  lemma ChangeStays(hash: Hash, text: string, r: Request)
    requires Changes(hash, text, r) && Stays(text) && Orderly(r)
    ensures Stays(FileStep(hash, text, r).value)
  {
    StepTerminated(hash, text, r);
    ChangeRewrites(hash, text, r);
    BearingOne(text, r.user);
    ChangeAltersOnlyIff(hash, text, r);
  }

  /** One whose name fits and whose uid can be had leaves names and uids distinct and the file readable. */
  lemma StepStays(hash: Hash, text: string, r: Request)
    requires Stays(text) && Orderly(r)
    requires r.UserAdd? ==> |r.user| < NAME_WIDTH && (r.uid == 0 ==> Top(text) + 1 < ORDINARY_END)
    ensures Stays(Next(hash, text, r))
    ensures Top(Next(hash, text, r)) == TopNext(Top(text), r, FileStep(hash, text, r).Some?)
  {
    if Adds(hash, text, r) {
      AddStays(hash, text, r);
      AddRaises(hash, text, r);
    } else if Changes(hash, text, r) {
      ChangeStays(hash, text, r);
      ChangeKeepsTop(hash, text, r);
    }
  }

  /**
   From the start and the requests alone: on a readable file with distinct names and
   uids, requests whose names fit and whose home directories hold no separator, with
   uids enough for those left to pick, keep names and uids distinct throughout and
   the file readable.
   */
  lemma {:induction false} StaysDistinct(hash: Hash, text: string, requests: seq<Request>)
    requires Sound(text) && Distinct(Entries(text))
    requires AllOrderly(requests) && AllShort(requests) && Roomy(Top(text), requests)
    ensures AlwaysDistinct(hash, text, requests) && Sound(Run(hash, text, requests))
    decreases |requests|
  {
    if requests != [] {
      var r := requests[0];
      assert r in requests;
      StepStays(hash, text, r);
      RoomyNext(Top(text), requests, FileStep(hash, text, r).Some?);
      StaysDistinct(hash, Next(hash, text, r), requests[1..]);
    }
  }

  // ---- how long a rewritten file is ----

  const SPARE := 512              // what is allocated beyond the size of the file

  /** The length of a file with these lines. */
  function Total(lines: seq<string>): nat { if lines == [] then 0 else |lines[0]| + 1 + Total(lines[1..]) }

  /** The length of the lines that bear a name. */
  function Claimed(lines: seq<string>, user: string, name: string -> string): nat {
    if lines == [] then 0
    else (if name(lines[0]) == user then |lines[0]| else 0) + Claimed(lines[1..], user, name)
  }

  lemma {:induction false} TotalReplaced(lines: seq<string>, user: string, body: string, name: string -> string)
    ensures Total(Replaced(lines, user, body, name)) + Claimed(lines, user, name) ==
            Total(lines) + LinesNamed(lines, user, name) * |body|
  {
    if lines != [] {
      TotalReplaced(lines[1..], user, body, name);
      assert Replaced(lines, user, body, name)[1..] == Replaced(lines[1..], user, body, name);
      Distribute(if name(lines[0]) == user then 1 else 0, LinesNamed(lines[1..], user, name), |body|);
    }
  }

  lemma Distribute(a: nat, b: nat, c: nat)
    ensures (a + b) * c == a * c + b * c
  {
  }

  lemma {:induction false} TotalIs(text: string)
    ensures Total(Lines(text)) == |text| + if Terminated(text) then 0 else 1
    decreases |text|
  {
    if text != [] {
      TotalIs(After(text));
      LastOf(text);
      assert ([Line(text)] + Lines(After(text)))[1..] == Lines(After(text));
    }
  }

  lemma LastOf(text: string)
    requires text != []
    ensures Terminated(text) <==> LineEnd(text) < |text| && Terminated(After(text))
  {
    if Terminated(text) {
      TerminatedLine(text);
    } else if LineEnd(text) < |text| {
      var rest := After(text);
      assert rest != [] ==> rest[|rest| - 1] == text[|text| - 1];
    }
  }

  lemma RewriteLength(text: string, user: string, body: string)
    requires '\n' !in body
    ensures |Rewrite(text, user, body)| + Claimed(Lines(text), user, NameOf) ==
            |text| + (if Terminated(text) then 0 else 1) + Bearing(text, user) * |body|
  {
    RewriteTerminated(text, user, body);
    RewriteLines(text, user, body);
    TotalIs(Rewrite(text, user, body));
    TotalIs(text);
    TotalReplaced(Lines(text), user, body, NameOf);
  }

  /** The file fits what was allocated for it exactly when the new lines outgrow the old by no more than the spare room. */
  lemma RewriteFitsIff(hash: Hash, text: string, r: Request)
    requires Changes(hash, text, r) && SaltOk(r)
    ensures First(Entries(text), ByName(r.user)).Some?
    ensures |FileStep(hash, text, r).value| <= |text| + SPARE <==>
            Bearing(text, r.user) * |Rendered(Changed(hash, text, r))| + (if Terminated(text) then 0 else 1)
              <= Claimed(Lines(text), r.user, NameOf) + SPARE
  {
    ChangeWrites(hash, text, r);
    ChangedGood(hash, text, r);
    SuffixClean(Changed(hash, text, r), 0);
    RewriteLength(text, r.user, Rendered(Changed(hash, text, r)));
  }

  lemma RenderedLength(e: Entry)
    ensures |Rendered(e)| == |e.name| + |e.home| + |e.salt| + |Digits(e.uid)| + |Digits(e.gid)| + |Digits(e.iterations)| + 70
  {
    FrontOf(e);
    assert Suffix(e, 6) == HexOf(e.digest);
    assert Suffix(e, 5) == Digits(e.iterations) + (":" + Suffix(e, 6));
    assert Suffix(e, 4) == e.salt + (":" + Suffix(e, 5));
  }

  lemma RenderedShort(e: Entry)
    requires Good(e)
    ensures |Rendered(e)| <= 289
  {
    RenderedLength(e);
    NumberFits(e.uid);
    NumberFits(e.gid);
    NumberFits(e.iterations);
  }

  /** With one line of the name it always fits. */
  lemma RewriteFits(hash: Hash, text: string, r: Request)
    requires Changes(hash, text, r) && SaltOk(r) && Bearing(text, r.user) == 1
    ensures |FileStep(hash, text, r).value| <= |text| + SPARE
  {
    RewriteFitsIff(hash, text, r);
    ChangedGood(hash, text, r);
    RenderedShort(Changed(hash, text, r));
  }

  function Same(line: string, n: nat): seq<string> { if n == 0 then [] else [line] + Same(line, n - 1) }

  /** A line of nothing but the name, as often as asked. */
  function Bare(name: string, n: nat): string { if n == 0 then [] else name + ("\n" + Bare(name, n - 1)) }

  lemma LineMore(text: string, line: string, rest: string, lines: seq<string>)
    requires '\n' !in line && text == line + ("\n" + rest) && Lines(rest) == lines
    ensures Lines(text) == [line] + lines
  {
    LineInFront(line, rest);
  }

  lemma {:induction false} BareLines(name: string, n: nat)
    requires '\n' !in name
    ensures Lines(Bare(name, n)) == Same(name, n)
    decreases n
  {
    if n == 0 {
      assert Bare(name, n) == [] && Same(name, n) == [];
    } else {
      BareLines(name, n - 1);
      LineMore(Bare(name, n), name, Bare(name, n - 1), Same(name, n - 1));
    }
  }

  lemma {:induction false} SameNamed(line: string, n: nat, user: string, name: string -> string)
    requires name(line) == user
    ensures LinesNamed(Same(line, n), user, name) == n && Claimed(Same(line, n), user, name) == n * |line|
    decreases n
  {
    if n > 0 {
      SameNamed(line, n - 1, user, name);
      assert Same(line, n)[1..] == Same(line, n - 1);
      Distribute(1, n - 1, |line|);
    }
  }

  lemma NamedMore(line: string, lines: seq<string>, user: string, name: string -> string)
    requires name(line) == user
    ensures LinesNamed([line] + lines, user, name) == 1 + LinesNamed(lines, user, name)
    ensures Claimed([line] + lines, user, name) == |line| + Claimed(lines, user, name)
  {
    assert ([line] + lines)[1..] == lines;
  }

  lemma FirstRead(line: string, lines: seq<string>, e: Entry, read: string -> Option<Entry>)
    requires read(line) == Some(e)
    ensures First(Readable([line] + lines, read), ByName(e.name)) == Some(e)
  {
    assert ([line] + lines)[1..] == lines;
  }

  lemma LinesOfOne(f: Entry, rest: string, n: nat)
    requires Good(f) && Lines(rest) == Same(f.name, n)
    ensures var text := Rendered(f) + ("\n" + rest);
            && First(Entries(text), ByName(f.name)) == Some(f)
            && Bearing(text, f.name) == n + 1 && Claimed(Lines(text), f.name, NameOf) == |Rendered(f)| + n * |f.name|
  {
    GoodIff(f);
    RenderedBack(f);
    WrittenLine(f, rest);
    LastBack(f.name, NAME_WIDTH);
    SameNamed(f.name, n, f.name, NameOf);
    NamedMore(Rendered(f), Same(f.name, n), f.name, NameOf);
    FirstRead(Rendered(f), Same(f.name, n), f, Parsed);
  }

  lemma Outgrows(n: nat, body: nat, line: nat, name: nat)
    requires n >= 8 && body >= name + 73 && line <= body + 58
    ensures (n + 1) * body > line + n * name + SPARE
  {
    assert n * (body - name) >= 8 * 73;
    assert (n + 1) * body == n * (body - name) + n * name + body;
  }

  lemma RenewedLength(f: Entry, g: Entry)
    requires Good(f) && g.name == f.name && g.home == f.home
    ensures |Rendered(g)| >= |f.name| + 73 && |Rendered(f)| <= |Rendered(g)| + 58
  {
    RenderedLength(f);
    RenderedLength(g);
    NumberFits(f.uid);
    NumberFits(f.gid);
    NumberFits(f.iterations);
  }

  lemma OverrunOn(hash: Hash, text: string, f: Entry, r: Request, n: nat)
    requires Good(f) && r.Passwd? && r.caller == 0 && r.user == f.name && SaltOk(r) && n >= 8
    requires First(Entries(text), ByName(f.name)) == Some(f) && Bearing(text, f.name) == n + 1
    requires Claimed(Lines(text), f.name, NameOf) == |Rendered(f)| + n * |f.name|
    ensures FileStep(hash, text, r).Some? && |FileStep(hash, text, r).value| > |text| + SPARE
  {
    RewriteFitsIff(hash, text, r);
    var g := Changed(hash, text, r);
    RenewedLength(f, g);
    Outgrows(n, |Rendered(g)|, |Rendered(f)|, |f.name|);
  }

  /** An account's line and eight or more of its bare name: the change needs more than was allocated. */
  lemma ManyLinesOverrun(hash: Hash, f: Entry, r: Request, n: nat)
    requires Good(f) && r.Passwd? && r.caller == 0 && r.user == f.name && SaltOk(r) && n >= 8
    ensures var text := Rendered(f) + ("\n" + Bare(f.name, n));
            FileStep(hash, text, r).Some? && |FileStep(hash, text, r).value| > |text| + SPARE
  {
    BareLines(f.name, n);
    LinesOfOne(f, Bare(f.name, n), n);
    OverrunOn(hash, Rendered(f) + ("\n" + Bare(f.name, n)), f, r, n);
  }
}
