/**
 Requests on the account database: a text file, appended to and rewritten whole,
 that must behave like a table with unique names and uids.
 */
module Accounts {
  import opened AccountLines
  import opened AccountFile
  import opened Wrappers

  // ---- requests ----

  datatype Request =
    | UserAdd(caller: U32, user: string, password: string, uid: U32, gid: U32, home: string, salt: string)
    | Passwd(caller: U32, user: string, given: string, password: string, salt: string)

  /** The account a request to add one makes. */
  function Added(hash: Hash, r: Request, next: U32): Entry
    requires r.UserAdd?
  {
    Entry(r.user, if r.uid == 0 then next else r.uid, if r.uid == 0 then next else r.gid, r.home, r.salt, ITERATIONS,
          hash(r.salt, r.password, ITERATIONS))
  }

  /** The account a change of password leaves. */
  function Renewed(hash: Hash, r: Request, e: Entry): Entry
    requires r.Passwd?
  {
    e.(name := r.user, salt := r.salt, iterations := ITERATIONS, digest := hash(r.salt, r.password, ITERATIONS))
  }

  /** Root may always; anyone else only for their own account, proving they know the password. */
  predicate MayChange(hash: Hash, r: Request, e: Entry)
    requires r.Passwd?
  {
    r.caller == 0 || (r.caller == e.uid && r.given != [] && hash(e.salt, r.given, e.iterations) == e.digest)
  }

  function Replace(es: seq<Entry>, user: string, e: Entry): (r: seq<Entry>)
    ensures |r| == |es|
    ensures forall i :: 0 <= i < |es| ==> r[i] == if es[i].name == user then e else es[i]
  {
    seq(|es|, i requires 0 <= i < |es| => if es[i].name == user then e else es[i])
  }

  /** The account a request writes, if it is granted. */
  function Granted(hash: Hash, es: seq<Entry>, r: Request, next: U32): Option<Entry> {
    match r
    case UserAdd(_, _, _, _, _, _, _) =>
      if r.caller != 0 || r.user == [] || !Clean(r.user) || First(es, ByName(r.user)).Some?
         || (r.uid != 0 && First(es, ByUid(r.uid)).Some?)
      then None else Some(Added(hash, r, next))
    case Passwd(_, _, _, _, _) =>
      var found := First(es, ByName(r.user));
      if found.None? || !MayChange(hash, r, found.value) then None else Some(Renewed(hash, r, found.value))
  }

  /** The same request on the file; nothing if it is refused. */
  function FileStep(hash: Hash, text: string, r: Request): Option<string> {
    FilePutIf(text, r, Granted(hash, Entries(text), r, PickUid(text)))
  }

  function FilePutIf(text: string, r: Request, e: Option<Entry>): Option<string> {
    if e.None? then None else Some(FilePut(text, r, e.value))
  }

  function FilePut(text: string, r: Request, e: Entry): string {
    if r.UserAdd? then text + (Rendered(e) + "\n") else Rewrite(text, r.user, Rendered(e))
  }

  function Rewrite(text: string, user: string, body: string): string
    decreases |text|
  {
    if text == [] then []
    else (if Field(Line(text), NAME_WIDTH) == user then body else Line(text)) +
         ("\n" + Rewrite(After(text), user, body))
  }

  /** The server makes its own salts, of eight letters and digits. */
  predicate SaltOk(r: Request) { Clean(r.salt) && |r.salt| < SALT_WIDTH }

  /** Nothing in the request can be mistaken for a separator the server did not write. */
  predicate Orderly(r: Request) { SaltOk(r) && (r.UserAdd? ==> Clean(r.home)) }

  /** The account asked for stays on one line; its home directory may hold colons. */
  predicate Unbroken(r: Request) { SaltOk(r) && (r.UserAdd? ==> '\n' !in r.home) }

  lemma PutIfGranted(text: string, r: Request, granted: Option<Entry>, e: Entry)
    requires granted == Some(e)
    ensures FilePutIf(text, r, granted) == Some(FilePut(text, r, e))
  {
  }

  // ---- adding ----

  /** The account an addition writes. */
  function NewEntry(hash: Hash, text: string, r: Request): Entry
    requires r.UserAdd?
  {
    Added(hash, r, PickUid(text))
  }

  predicate Adds(hash: Hash, text: string, r: Request) { r.UserAdd? && FileStep(hash, text, r).Some? }

  lemma AddWrites(hash: Hash, text: string, r: Request)
    requires Adds(hash, text, r)
    ensures r.caller == 0 && r.user != [] && Clean(r.user)
    ensures First(Entries(text), ByName(r.user)).None? && (r.uid != 0 ==> First(Entries(text), ByUid(r.uid)).None?)
    ensures FileStep(hash, text, r) == Some(text + (Rendered(NewEntry(hash, text, r)) + "\n"))
  {
    PutIfGranted(text, r, Granted(hash, Entries(text), r, PickUid(text)), NewEntry(hash, text, r));
  }

  /** A granted addition adds one account: what the buffers keep of the one asked for. */
  lemma AddShown(hash: Hash, text: string, r: Request)
    requires Adds(hash, text, r) && Terminated(text) && Orderly(r)
    ensures Entries(FileStep(hash, text, r).value) == Entries(text) + [Shown(NewEntry(hash, text, r))]
    ensures AllParse(text) ==> AllParse(FileStep(hash, text, r).value)
  {
    AddWrites(hash, text, r);
    AppendedShown(text, NewEntry(hash, text, r));
  }

  /** And with colons in the home directory, what its line is read as, if it is read at all. */
  lemma AddReads(hash: Hash, text: string, r: Request)
    requires Adds(hash, text, r) && Terminated(text) && Unbroken(r)
    ensures Entries(FileStep(hash, text, r).value) == Entries(text) + One(ReadAs(NewEntry(hash, text, r)))
    ensures ReadAs(NewEntry(hash, text, r)).Some? <==> Legible(r.home)
  {
    AddWrites(hash, text, r);
    AppendedRead(text, NewEntry(hash, text, r));
  }

  lemma StepTerminated(hash: Hash, text: string, r: Request)
    requires FileStep(hash, text, r).Some?
    ensures Terminated(FileStep(hash, text, r).value)
  {
    var granted := Granted(hash, Entries(text), r, PickUid(text));
    PutIfGranted(text, r, granted, granted.value);
    if r.Passwd? {
      RewriteTerminated(text, r.user, Rendered(granted.value));
    }
  }

  lemma {:induction false} RewriteTerminated(text: string, user: string, body: string)
    ensures Terminated(Rewrite(text, user, body))
    decreases |text|
  {
    if text != [] {
      RewriteTerminated(After(text), user, body);
    }
  }

  // ---- changing a password ----

  function Replaced(lines: seq<string>, user: string, body: string, name: string -> string): seq<string> {
    if lines == [] then []
    else [if name(lines[0]) == user then body else lines[0]] + Replaced(lines[1..], user, body, name)
  }

  function NameOf(line: string): string { Field(line, NAME_WIDTH) }

  lemma ReplacedFirst(line: string, lines: seq<string>, user: string, body: string)
    ensures Replaced([line] + lines, user, body, NameOf) ==
            [if NameOf(line) == user then body else line] + Replaced(lines, user, body, NameOf)
  {
    assert ([line] + lines)[1..] == lines;
  }

  lemma {:induction false} RewriteLines(text: string, user: string, body: string)
    requires '\n' !in body
    ensures Lines(Rewrite(text, user, body)) == Replaced(Lines(text), user, body, NameOf)
    decreases |text|
  {
    if text != [] {
      var rest := Rewrite(After(text), user, body);
      RewriteLines(After(text), user, body);
      var line := if NameOf(Line(text)) == user then body else Line(text);
      LineInFront(line, rest);
      ReplacedFirst(Line(text), Lines(After(text)), user, body);
    }
  }

  /** The accounts of a file in which every line of one user has been replaced by one account. */
  function Rewritten(lines: seq<string>, user: string, e: Entry,
                     read: string -> Option<Entry>, name: string -> string): seq<Entry> {
    if lines == [] then []
    else (if name(lines[0]) == user then [e] else One(read(lines[0]))) + Rewritten(lines[1..], user, e, read, name)
  }

  lemma {:induction false} ReadableReplaced(lines: seq<string>, user: string, body: string, e: Entry,
                                            read: string -> Option<Entry>, name: string -> string)
    requires read(body) == Some(e)
    ensures Readable(Replaced(lines, user, body, name), read) == Rewritten(lines, user, e, read, name)
    ensures AllRead(lines, read) ==> AllRead(Replaced(lines, user, body, name), read)
  {
    if lines != [] {
      ReadableReplaced(lines[1..], user, body, e, read, name);
      assert Replaced(lines, user, body, name)[1..] == Replaced(lines[1..], user, body, name);
      assert AllRead(lines, read) ==> AllRead(lines[1..], read);
    }
  }

  function Changed(hash: Hash, text: string, r: Request): Entry
    requires r.Passwd? && First(Entries(text), ByName(r.user)).Some?
  {
    Renewed(hash, r, First(Entries(text), ByName(r.user)).value)
  }

  predicate Changes(hash: Hash, text: string, r: Request) { r.Passwd? && FileStep(hash, text, r).Some? }

  lemma ChangeWrites(hash: Hash, text: string, r: Request)
    requires Changes(hash, text, r)
    ensures First(Entries(text), ByName(r.user)).Some?
    ensures FileStep(hash, text, r) == Some(Rewrite(text, r.user, Rendered(Changed(hash, text, r))))
  {
    PutIfGranted(text, r, Granted(hash, Entries(text), r, PickUid(text)), Changed(hash, text, r));
  }

  lemma ChangedGood(hash: Hash, text: string, r: Request)
    requires r.Passwd? && First(Entries(text), ByName(r.user)).Some? && SaltOk(r)
    ensures Good(Changed(hash, text, r)) && Changed(hash, text, r).name == r.user
  {
    FirstIff(Entries(text), ByName(r.user));
    ReadableGood(Lines(text));
  }

  lemma RewriteEntries(text: string, user: string, e: Entry)
    requires Good(e)
    ensures Entries(Rewrite(text, user, Rendered(e))) == Rewritten(Lines(text), user, e, Parsed, NameOf)
    ensures AllParse(text) ==> AllParse(Rewrite(text, user, Rendered(e)))
  {
    GoodIff(e);
    SuffixClean(e, 0);
    RenderedBack(e);
    RewriteLines(text, user, Rendered(e));
    ReadableReplaced(Lines(text), user, Rendered(e), e, Parsed, NameOf);
  }

  /** A granted change replaces every line that bears the name, readable or not, by the one account. */
  lemma ChangeRewrites(hash: Hash, text: string, r: Request)
    requires Changes(hash, text, r) && SaltOk(r)
    ensures First(Entries(text), ByName(r.user)).Some?
    ensures Entries(FileStep(hash, text, r).value) ==
            Rewritten(Lines(text), r.user, Changed(hash, text, r), Parsed, NameOf)
    ensures AllParse(text) ==> AllParse(FileStep(hash, text, r).value)
  {
    ChangeWrites(hash, text, r);
    ChangedGood(hash, text, r);
    RewriteEntries(text, r.user, Changed(hash, text, r));
  }

  // ---- names on lines and in the table ----

  function LinesNamed(lines: seq<string>, user: string, name: string -> string): nat {
    if lines == [] then 0 else (if name(lines[0]) == user then 1 else 0) + LinesNamed(lines[1..], user, name)
  }

  /** How many lines of a file bear a name, readable or not. */
  function Bearing(text: string, user: string): nat { LinesNamed(Lines(text), user, NameOf) }

  function Named(es: seq<Entry>, user: string): nat {
    if es == [] then 0 else (if es[0].name == user then 1 else 0) + Named(es[1..], user)
  }

  predicate NamesAgree(lines: seq<string>, read: string -> Option<Entry>, name: string -> string) {
    forall l :: l in lines && read(l).Some? ==> read(l).value.name == name(l)
  }

  lemma ParsedNames(lines: seq<string>)
    ensures NamesAgree(lines, Parsed, NameOf)
  {
    forall l | l in lines && Parsed(l).Some? ensures Parsed(l).value.name == NameOf(l) {
    }
  }

  lemma {:induction false} NamedJoin(a: seq<Entry>, b: seq<Entry>, user: string)
    ensures Named(a + b, user) == Named(a, user) + Named(b, user)
  {
    if a == [] {
      assert a + b == b;
    } else {
      assert (a + b)[1..] == a[1..] + b;
      NamedJoin(a[1..], b, user);
    }
  }

  lemma NamedOne(e: Entry, user: string)
    ensures Named([e], user) == if e.name == user then 1 else 0
  {
    assert [e][1..] == [];
  }

  lemma {:induction false} RewrittenNamed(lines: seq<string>, user: string, e: Entry,
                                          read: string -> Option<Entry>, name: string -> string)
    requires NamesAgree(lines, read, name) && e.name == user
    ensures Named(Rewritten(lines, user, e, read, name), user) == LinesNamed(lines, user, name)
    ensures Named(Readable(lines, read), user) <= LinesNamed(lines, user, name)
  {
    if lines != [] {
      var rest, l := lines[1..], lines[0];
      RewrittenNamed(rest, user, e, read, name);
      NamedJoin(if name(l) == user then [e] else One(read(l)), Rewritten(rest, user, e, read, name), user);
      NamedJoin(One(read(l)), Readable(rest, read), user);
      NamedOne(e, user);
      if read(l).Some? {
        NamedOne(read(l).value, user);
      }
    }
  }

  lemma {:induction false} NamedAt(es: seq<Entry>, user: string) returns (k: nat)
    requires Named(es, user) > 0
    ensures k < |es| && es[k].name == user
  {
    if es[0].name == user {
      k := 0;
    } else {
      k := NamedAt(es[1..], user);
      k := k + 1;
    }
  }

  lemma {:induction false} DistinctNamed(es: seq<Entry>, user: string)
    requires Distinct(es)
    ensures Named(es, user) <= 1
  {
    if es != [] {
      assert Distinct(es[1..]);
      DistinctNamed(es[1..], user);
      if Named(es[1..], user) > 0 {
        var k := NamedAt(es[1..], user);
        assert es[1..][k] == es[k + 1];
      }
    }
  }

  lemma {:induction false} RewrittenUnnamed(lines: seq<string>, user: string, e: Entry,
                                            read: string -> Option<Entry>, name: string -> string)
    requires NamesAgree(lines, read, name) && LinesNamed(lines, user, name) == 0
    ensures Rewritten(lines, user, e, read, name) == Readable(lines, read)
    ensures Replace(Readable(lines, read), user, e) == Readable(lines, read)
  {
    if lines != [] {
      RewrittenUnnamed(lines[1..], user, e, read, name);
      ReplaceJoin(One(read(lines[0])), Readable(lines[1..], read), user, e);
    }
  }

  lemma ReplaceJoin(a: seq<Entry>, b: seq<Entry>, user: string, e: Entry)
    ensures Replace(a + b, user, e) == Replace(a, user, e) + Replace(b, user, e)
  {
  }

  /** Where one line bears the name and it is an account, rewriting replaces that account. */
  lemma {:induction false} RewrittenOnce(lines: seq<string>, user: string, e: Entry,
                                         read: string -> Option<Entry>, name: string -> string)
    requires NamesAgree(lines, read, name) && LinesNamed(lines, user, name) == 1
    requires First(Readable(lines, read), ByName(user)).Some?
    ensures Rewritten(lines, user, e, read, name) == Replace(Readable(lines, read), user, e)
  {
    var l, rest := lines[0], lines[1..];
    var es := Readable(rest, read);
    ReplaceJoin(One(read(l)), es, user, e);
    FirstInJoin(One(read(l)), es, ByName(user));
    ReplaceOne(read(l), user, e);
    if name(l) == user {
      RewrittenUnnamed(rest, user, e, read, name);
      NoneNamed(rest, user, read, name);
      FirstOfOne(read(l), user);
    } else {
      FirstOfOne(read(l), user);
      RewrittenOnce(rest, user, e, read, name);
    }
  }

  lemma ReplaceOne(r: Option<Entry>, user: string, e: Entry)
    ensures Replace(One(r), user, e) == if r.Some? && r.value.name == user then [e] else One(r)
  {
  }

  lemma FirstOfOne(r: Option<Entry>, user: string)
    ensures First(One(r), ByName(user)).Some? <==> r.Some? && r.value.name == user
  {
    if r.Some? {
      assert One(r)[1..] == [];
    }
  }

  lemma {:induction false} FirstInJoin(a: seq<Entry>, b: seq<Entry>, key: Key)
    ensures First(a + b, key) == if First(a, key).Some? then First(a, key) else First(b, key)
  {
    if a == [] {
      assert a + b == b;
    } else {
      assert (a + b)[1..] == a[1..] + b;
      FirstInJoin(a[1..], b, key);
    }
  }

  lemma {:induction false} NoneNamed(lines: seq<string>, user: string, read: string -> Option<Entry>, name: string -> string)
    requires NamesAgree(lines, read, name) && LinesNamed(lines, user, name) == 0
    ensures First(Readable(lines, read), ByName(user)).None?
  {
    if lines != [] {
      NoneNamed(lines[1..], user, read, name);
      FirstInJoin(One(read(lines[0])), Readable(lines[1..], read), ByName(user));
    }
  }

  // ---- uniqueness ----

  predicate Distinct(es: seq<Entry>) {
    forall i, j :: 0 <= i < j < |es| ==> es[i].name != es[j].name && es[i].uid != es[j].uid
  }

  /** The name as it will be read is nobody's yet; for a name that fits, the server has made sure. */
  predicate NameLeft(text: string, r: Request)
    requires r.UserAdd?
  {
    First(Entries(text), ByName(Fit(r.user, NAME_WIDTH))).None?
  }

  /** A uid is picked while one is left to pick. */
  predicate UidLeft(text: string, r: Request)
    requires r.UserAdd?
  {
    r.uid == 0 ==> !(ORDINARY_END - 1 in LineUids(text) && Used(Entries(text), ORDINARY_END))
  }

  lemma DistinctMoreIff(es: seq<Entry>, e: Entry)
    requires Distinct(es)
    ensures Distinct(es + [e]) <==> First(es, ByName(e.name)).None? && !Used(es, e.uid)
  {
    var more := es + [e];
    FirstIff(es, ByName(e.name));
    if exists i :: 0 <= i < |es| && Fits(es[i], ByName(e.name)) {
      var i :| 0 <= i < |es| && Fits(es[i], ByName(e.name));
      assert more[i].name == more[|es|].name;
    }
    if Used(es, e.uid) {
      var i :| 0 <= i < |es| && es[i].uid == e.uid;
      assert more[i].uid == more[|es|].uid;
    }
    forall i | 0 <= i < |es| ensures Fits(es[i], ByName(e.name)) || es[i].name != e.name {
    }
  }

  lemma NewUidUsedIff(hash: Hash, text: string, r: Request)
    requires Adds(hash, text, r)
    ensures Used(Entries(text), NewEntry(hash, text, r).uid) <==> !UidLeft(text, r)
  {
    AddWrites(hash, text, r);
    PickUidUsedIff(text);
    FirstIff(Entries(text), ByUid(r.uid));
    if r.uid != 0 && Used(Entries(text), r.uid) {
      var i :| 0 <= i < |Entries(text)| && Entries(text)[i].uid == r.uid;
      assert Fits(Entries(text)[i], ByUid(r.uid));
    }
  }

  /** Adding keeps names and uids distinct exactly when the line is not read, or the name as read and the uid are left. */
  lemma AddDistinctIff(hash: Hash, text: string, r: Request)
    requires Adds(hash, text, r) && Terminated(text) && Unbroken(r) && Distinct(Entries(text))
    ensures Distinct(Entries(FileStep(hash, text, r).value)) <==>
            !Legible(r.home) || (NameLeft(text, r) && UidLeft(text, r))
    ensures |r.user| < NAME_WIDTH ==> NameLeft(text, r)
  {
    AddWrites(hash, text, r);
    AddReads(hash, text, r);
    NewUidUsedIff(hash, text, r);
    if Legible(r.home) {
      DistinctMoreIff(Entries(text), ReadAs(NewEntry(hash, text, r)).value);
    } else {
      assert Entries(text) + [] == Entries(text);
    }
  }

  lemma {:induction false} FirstUnique(es: seq<Entry>, k: nat)
    requires Distinct(es) && k < |es|
    ensures First(es, ByName(es[k].name)) == Some(es[k])
  {
    if k > 0 {
      assert es[0].name != es[k].name && es[1..][k - 1] == es[k];
      FirstUnique(es[1..], k - 1);
    }
  }

  /** Salt, iteration count and digest of one user's account, and nothing else. */
  function Altered(hash: Hash, es: seq<Entry>, r: Request): (t: seq<Entry>)
    requires r.Passwd?
    ensures |t| == |es|
    ensures forall k :: 0 <= k < |es| ==>
              t[k] == if es[k].name != r.user then es[k]
                      else es[k].(salt := r.salt, iterations := ITERATIONS, digest := hash(r.salt, r.password, ITERATIONS))
  {
    seq(|es|, k requires 0 <= k < |es| =>
      if es[k].name != r.user then es[k]
      else es[k].(salt := r.salt, iterations := ITERATIONS, digest := hash(r.salt, r.password, ITERATIONS)))
  }

  lemma ReplaceIsAltered(hash: Hash, es: seq<Entry>, r: Request, e: Entry)
    requires r.Passwd? && Distinct(es) && First(es, ByName(r.user)) == Some(e)
    ensures Replace(es, r.user, Renewed(hash, r, e)) == Altered(hash, es, r)
  {
    forall k | 0 <= k < |es| && es[k].name == r.user ensures es[k] == e {
      FirstUnique(es, k);
    }
  }

  lemma {:induction false} AlteredNamed(hash: Hash, es: seq<Entry>, r: Request)
    requires r.Passwd?
    ensures Named(Altered(hash, es, r), r.user) == Named(es, r.user)
  {
    if es != [] {
      assert Altered(hash, es, r)[1..] == Altered(hash, es[1..], r);
      AlteredNamed(hash, es[1..], r);
    }
  }

  lemma AlteredDistinct(hash: Hash, es: seq<Entry>, r: Request)
    requires r.Passwd? && Distinct(es)
    ensures Distinct(Altered(hash, es, r))
  {
  }

  lemma BearingSome(text: string, user: string)
    requires First(Entries(text), ByName(user)).Some?
    ensures Bearing(text, user) >= 1
  {
    ParsedNames(Lines(text));
    if Bearing(text, user) == 0 {
      NoneNamed(Lines(text), user, Parsed, NameOf);
    }
  }

  /**
   A change of password alters the salt, the iteration count and the digest of
   one account and nothing else, and keeps the table one, exactly when no second
   line bears the name: an unreadable one would be rewritten into a duplicate.
   */
  lemma ChangeAltersOnlyIff(hash: Hash, text: string, r: Request)
    requires Changes(hash, text, r) && SaltOk(r) && Distinct(Entries(text))
    ensures Entries(FileStep(hash, text, r).value) == Altered(hash, Entries(text), r) <==> Bearing(text, r.user) == 1
    ensures Distinct(Entries(FileStep(hash, text, r).value)) <==> Bearing(text, r.user) == 1
  {
    var es := Entries(text);
    ChangeRewrites(hash, text, r);
    ChangedGood(hash, text, r);
    BearingSome(text, r.user);
    var after := RewrittenOnceIff(hash, text, r);
    AlteredDistinct(hash, es, r);
    if Bearing(text, r.user) > 1 {
      AlteredNamed(hash, es, r);
      DistinctNamed(es, r.user);
      if Distinct(after) {
        DistinctNamed(after, r.user);
      }
    }
  }

  lemma RewrittenOnceIff(hash: Hash, text: string, r: Request) returns (after: seq<Entry>)
    requires r.Passwd? && First(Entries(text), ByName(r.user)).Some? && Distinct(Entries(text))
    requires Changed(hash, text, r).name == r.user
    ensures after == Rewritten(Lines(text), r.user, Changed(hash, text, r), Parsed, NameOf)
    ensures Bearing(text, r.user) == 1 ==> after == Altered(hash, Entries(text), r)
    ensures Named(after, r.user) == Bearing(text, r.user)
  {
    var e := Changed(hash, text, r);
    after := Rewritten(Lines(text), r.user, e, Parsed, NameOf);
    ParsedNames(Lines(text));
    RewrittenNamed(Lines(text), r.user, e, Parsed, NameOf);
    if Bearing(text, r.user) == 1 {
      RewrittenOnce(Lines(text), r.user, e, Parsed, NameOf);
      ReplaceIsAltered(hash, Entries(text), r, First(Entries(text), ByName(r.user)).value);
    }
  }

  // ---- runs ----

  /** No name and no uid of one table is in the other, or twice in the second. */
  predicate Apart(es: seq<Entry>, fs: seq<Entry>) {
    Distinct(fs) &&
    forall i, j :: 0 <= i < |es| && 0 <= j < |fs| ==> es[i].name != fs[j].name && es[i].uid != fs[j].uid
  }

  lemma ApartIff(es: seq<Entry>, fs: seq<Entry>)
    requires Distinct(es)
    ensures Distinct(es + fs) <==> Apart(es, fs)
  {
    var all, n := es + fs, |es|;
    if Distinct(all) {
      forall i, j | 0 <= i < j < |fs| ensures fs[i].name != fs[j].name && fs[i].uid != fs[j].uid {
        assert all[n + i] == fs[i] && all[n + j] == fs[j];
      }
      forall i, j | 0 <= i < n && 0 <= j < |fs| ensures es[i].name != fs[j].name && es[i].uid != fs[j].uid {
        assert all[i] == es[i] && all[n + j] == fs[j];
      }
    }
  }

  /**
   Whether a request leaves names and uids distinct, as can be seen before it. A
   home directory with newlines in it makes lines of its own, which can be any
   accounts at all: there it is those that have to be apart.
   */
  predicate Left(hash: Hash, text: string, r: Request) {
    FileStep(hash, text, r).Some? ==>
      if r.Passwd? then Bearing(text, r.user) == 1
      else if '\n' !in r.home then !Legible(r.home) || (NameLeft(text, r) && UidLeft(text, r))
      else Apart(Entries(text), Entries(Rendered(NewEntry(hash, text, r)) + "\n"))
  }

  /** The file after a request; a refused one leaves it alone. */
  function Next(hash: Hash, text: string, r: Request): string {
    var t := FileStep(hash, text, r);
    if t.Some? then t.value else text
  }

  lemma AddLeftIff(hash: Hash, text: string, r: Request)
    requires Adds(hash, text, r) && Terminated(text) && SaltOk(r) && Distinct(Entries(text))
    ensures Distinct(Entries(FileStep(hash, text, r).value)) <==> Left(hash, text, r)
  {
    if '\n' !in r.home {
      AddDistinctIff(hash, text, r);
    } else {
      var line := Rendered(NewEntry(hash, text, r)) + "\n";
      AddWrites(hash, text, r);
      EntriesJoin(text, line);
      ApartIff(Entries(text), Entries(line));
    }
  }

  lemma StepReadable(hash: Hash, text: string, r: Request)
    requires FileStep(hash, text, r).Some? && Terminated(text) && Orderly(r)
    ensures AllParse(text) ==> AllParse(FileStep(hash, text, r).value)
  {
    if r.UserAdd? {
      AddShown(hash, text, r);
    } else {
      ChangeRewrites(hash, text, r);
    }
  }

  lemma StepDistinctIff(hash: Hash, text: string, r: Request)
    requires Terminated(text) && SaltOk(r) && Distinct(Entries(text))
    ensures Terminated(Next(hash, text, r)) && (AllParse(text) && Orderly(r) ==> AllParse(Next(hash, text, r)))
    ensures Distinct(Entries(Next(hash, text, r))) <==> Left(hash, text, r)
  {
    if FileStep(hash, text, r).Some? {
      StepTerminated(hash, text, r);
      if Orderly(r) {
        StepReadable(hash, text, r);
      }
      if r.Passwd? {
        ChangeAltersOnlyIff(hash, text, r);
      } else {
        AddLeftIff(hash, text, r);
      }
    }
  }

  function Run(hash: Hash, text: string, requests: seq<Request>): string
    decreases |requests|
  {
    if requests == [] then text else Run(hash, Next(hash, text, requests[0]), requests[1..])
  }

  predicate AllSalted(requests: seq<Request>) { forall r :: r in requests ==> SaltOk(r) }

  predicate AllOrderly(requests: seq<Request>) { forall r :: r in requests ==> Orderly(r) }

  /** Names and uids are distinct at every moment of a run. */
  predicate AlwaysDistinct(hash: Hash, text: string, requests: seq<Request>)
    decreases |requests|
  {
    Distinct(Entries(text)) && (requests != [] ==> AlwaysDistinct(hash, Next(hash, text, requests[0]), requests[1..]))
  }

  predicate AllLeft(hash: Hash, text: string, requests: seq<Request>)
    decreases |requests|
  {
    requests != [] ==>
      Left(hash, text, requests[0]) && AllLeft(hash, Next(hash, text, requests[0]), requests[1..])
  }

  /**
   Through any run names and uids stay distinct exactly when every request granted
   finds its name and uid left, and its line the only one of its name. The file
   then stays newline-terminated, and readable if it was and no home directory
   holds a separator.
   */
  lemma {:induction false} RunKeepsIff(hash: Hash, text: string, requests: seq<Request>)
    requires Terminated(text) && Distinct(Entries(text)) && AllSalted(requests)
    ensures AlwaysDistinct(hash, text, requests) <==> AllLeft(hash, text, requests)
    ensures AlwaysDistinct(hash, text, requests) ==>
              && Terminated(Run(hash, text, requests)) && Distinct(Entries(Run(hash, text, requests)))
              && (AllParse(text) && AllOrderly(requests) ==> AllParse(Run(hash, text, requests)))
    decreases |requests|
  {
    if requests != [] {
      var r, next := requests[0], Next(hash, text, requests[0]);
      assert SaltOk(r) && AllSalted(requests[1..]);
      assert AllOrderly(requests) ==> Orderly(r) && AllOrderly(requests[1..]);
      StepDistinctIff(hash, text, r);
      if Distinct(Entries(next)) {
        RunKeepsIff(hash, next, requests[1..]);
      } else {
        assert !AlwaysDistinct(hash, next, requests[1..]);
      }
    }
  }

  // ---- the reference: a table ----

  function TableUids(es: seq<Entry>): seq<U32> { if es == [] then [] else [es[0].uid] + TableUids(es[1..]) }

  /** A request on a table, whose fields have no width and no separators. */
  function Step(hash: Hash, es: seq<Entry>, r: Request): Option<seq<Entry>> {
    var e := Granted(hash, es, r, NextUid(TableUids(es)));
    if e.None? then None else Some(if r.UserAdd? then es + [e.value] else Replace(es, r.user, e.value))
  }

  predicate Sound(text: string) { Terminated(text) && AllParse(text) }

  /** The fields fit their buffers and hold no separator. */
  predicate Fitting(r: Request) {
    r.UserAdd? ==> |r.user| < NAME_WIDTH && Clean(r.home) && |r.home| < HOME_WIDTH
  }

  lemma {:induction false} UidsRead(lines: seq<string>, read: string -> Option<Entry>, uid: string -> U32)
    requires AllRead(lines, read) && forall l :: l in lines && read(l).Some? ==> read(l).value.uid == uid(l)
    ensures Uids(lines, uid) == TableUids(Readable(lines, read))
  {
    if lines != [] {
      UidsRead(lines[1..], read, uid);
      assert Readable(lines, read)[1..] == Readable(lines[1..], read);
    }
  }

  lemma PickedAlike(text: string)
    requires AllParse(text)
    ensures PickUid(text) == NextUid(TableUids(Entries(text)))
  {
    PickUidIs(text);
    forall l | l in Lines(text) && Parsed(l).Some? ensures Parsed(l).value.uid == UidOf(l) {
    }
    UidsRead(Lines(text), Parsed, UidOf);
  }

  lemma {:induction false} RewrittenRead(lines: seq<string>, user: string, e: Entry,
                                         read: string -> Option<Entry>, name: string -> string)
    requires NamesAgree(lines, read, name) && AllRead(lines, read)
    ensures Rewritten(lines, user, e, read, name) == Replace(Readable(lines, read), user, e)
  {
    if lines != [] {
      RewrittenRead(lines[1..], user, e, read, name);
      ReplaceJoin(One(read(lines[0])), Readable(lines[1..], read), user, e);
    }
  }

  /**
   The readable file grants exactly what the table grants, and does what the table
   does exactly when the fields of an addition fit and hold no separator.
   */
  lemma StepRefinesIff(hash: Hash, text: string, r: Request)
    requires Sound(text) && SaltOk(r)
    ensures FileStep(hash, text, r).Some? <==> Step(hash, Entries(text), r).Some?
    ensures FileStep(hash, text, r).Some? ==>
              (Entries(FileStep(hash, text, r).value) == Step(hash, Entries(text), r).value <==> Fitting(r))
  {
    PickedAlike(text);
    if FileStep(hash, text, r).Some? {
      if r.UserAdd? {
        AddWrites(hash, text, r);
        AppendedBackIff(text, NewEntry(hash, text, r));
      } else {
        ChangeRewrites(hash, text, r);
        ParsedNames(Lines(text));
        RewrittenRead(Lines(text), r.user, Changed(hash, text, r), Parsed, NameOf);
      }
    }
  }

  /** An account is granted and written, and no account is there to read, exactly when its home directory is illegible. */
  lemma AccountLostIff(hash: Hash, text: string, r: Request)
    requires Adds(hash, text, r) && Terminated(text) && Unbroken(r)
    ensures Entries(FileStep(hash, text, r).value) == Entries(text) <==> !Legible(r.home)
  {
    AddReads(hash, text, r);
    assert Entries(text) + [] == Entries(text);
  }

  /** A home directory with newlines can add any account, one whose name or uid is taken included. */
  lemma NewlineBreaksDistinct(hash: Hash, text: string, r: Request, f: Entry, x: string, y: string)
    requires Adds(hash, text, r) && Terminated(text) && Good(f)
    requires r.home == x + ("\n" + (Rendered(f) + ("\n" + y)))
    ensures f in Entries(FileStep(hash, text, r).value)
    ensures First(Entries(text), ByName(f.name)).Some? || Used(Entries(text), f.uid) ==>
              !Distinct(Entries(FileStep(hash, text, r).value))
  {
    AddWrites(hash, text, r);
    var es, line := Entries(text), Rendered(NewEntry(hash, text, r)) + "\n";
    NewlineAdds(NewEntry(hash, text, r), f, x, y);
    EntriesJoin(text, line);
    TakenTwice(es, Entries(line), f);
  }

  lemma TakenTwice(es: seq<Entry>, fs: seq<Entry>, f: Entry)
    requires f in fs
    ensures First(es, ByName(f.name)).Some? || Used(es, f.uid) ==> !Distinct(es + fs)
  {
    var j :| 0 <= j < |fs| && fs[j] == f;
    FirstIff(es, ByName(f.name));
    if First(es, ByName(f.name)).Some? || Used(es, f.uid) {
      var i :| 0 <= i < |es| && (es[i].name == f.name || es[i].uid == f.uid);
      assert (es + fs)[i] == es[i] && (es + fs)[|es| + j] == f;
    }
  }

  // ---- names that do not fit ----

  lemma LongNameMissed(text: string, user: string)
    requires |user| >= NAME_WIDTH
    ensures First(Entries(text), ByName(user)).None?
  {
    FirstIff(Entries(text), ByName(user));
    ReadableGood(Lines(text));
  }

  lemma {:induction false} FirstOfMore(es: seq<Entry>, e: Entry, key: Key)
    ensures First(es + [e], key) ==
            if First(es, key).Some? then First(es, key) else if Fits(e, key) then Some(e) else None
  {
    if es == [] {
      assert es + [e] == [e] && [e][1..] == [];
    } else {
      assert (es + [e])[1..] == es[1..] + [e];
      FirstOfMore(es[1..], e, key);
    }
  }

  /** What the file then answers to a name. */
  lemma FirstAfterAdd(hash: Hash, text: string, r: Request, who: string)
    requires Adds(hash, text, r) && Terminated(text) && Unbroken(r)
    ensures First(Entries(FileStep(hash, text, r).value), ByName(who)) ==
            if First(Entries(text), ByName(who)).Some? then First(Entries(text), ByName(who))
            else if who == Fit(r.user, NAME_WIDTH) then ReadAs(NewEntry(hash, text, r)) else None
  {
    AddReads(hash, text, r);
    var read := ReadAs(NewEntry(hash, text, r));
    if read.Some? {
      FirstOfMore(Entries(text), read.value, ByName(who));
    } else {
      assert Entries(text) + [] == Entries(text);
    }
  }

  /** A new account can be found by its name exactly when the name fits its buffer and the line can be read. */
  lemma FoundAgainIff(hash: Hash, text: string, r: Request)
    requires Adds(hash, text, r) && Terminated(text) && Unbroken(r)
    ensures First(Entries(FileStep(hash, text, r).value), ByName(r.user)).Some? <==>
            |r.user| < NAME_WIDTH && Legible(r.home)
  {
    AddWrites(hash, text, r);
    AddReads(hash, text, r);
    FirstAfterAdd(hash, text, r, r.user);
  }

  /** So a longer name is granted a second time, and two accounts then bear what is read of it. */
  lemma LongNameTwice(hash: Hash, text: string, r: Request)
    requires Adds(hash, text, r) && Terminated(text) && Unbroken(r) && r.uid == 0
    requires |r.user| >= NAME_WIDTH && Legible(r.home)
    ensures var once := FileStep(hash, text, r).value;
            && Adds(hash, once, r)
            && Named(Entries(FileStep(hash, once, r).value), Fit(r.user, NAME_WIDTH)) >= 2
            && !Distinct(Entries(FileStep(hash, once, r).value))
  {
    var once := FileStep(hash, text, r).value;
    AddWrites(hash, text, r);
    LongNameMissed(once, r.user);
    AddReads(hash, text, r);
    StepTerminated(hash, text, r);
    AddedTwice(hash, once, r, Entries(text), ReadAs(NewEntry(hash, text, r)).value);
  }

  lemma AddedTwice(hash: Hash, once: string, r: Request, es: seq<Entry>, e: Entry)
    requires Adds(hash, once, r) && Terminated(once) && Unbroken(r) && Legible(r.home)
    requires Entries(once) == es + [e] && e.name == Fit(r.user, NAME_WIDTH)
    ensures Named(Entries(FileStep(hash, once, r).value), e.name) >= 2
    ensures !Distinct(Entries(FileStep(hash, once, r).value))
  {
    AddReads(hash, once, r);
    var f := ReadAs(NewEntry(hash, once, r)).value;
    NamedJoin(es, [e], e.name);
    NamedJoin(es + [e], [f], e.name);
    NamedOne(e, e.name);
    NamedOne(f, e.name);
    var twice := es + [e] + [f];
    assert twice[|es|].name == twice[|es| + 1].name;
  }

  // ---- logging in ----

  /** The target's password every time, and only root may become anyone but root. */
  predicate Admits(hash: Hash, e: Entry, caller: U32, password: string) {
    (caller == 0 || e.uid == 0) && hash(e.salt, password, e.iterations) == e.digest
  }

  predicate LogsIn(hash: Hash, es: seq<Entry>, caller: U32, user: string, password: string) {
    var found := First(es, ByName(user));
    found.Some? && Admits(hash, found.value, caller, password)
  }

  predicate Opens(hash: Hash, e: Option<Entry>, password: string) {
    e.Some? && hash(e.value.salt, password, e.value.iterations) == e.value.digest
  }

  /** Whether the line of a new account takes a password: its own always, with a digest in the home directory that one's. */
  predicate Accepts(hash: Hash, r: Request)
    requires r.UserAdd?
  {
    Clean(r.home) ||
    (HomeDigest(r.home).Some? &&
     hash(Field(Tail(r.home, 1), SALT_WIDTH), r.password, NumberAt(r.home, 2)) == HomeDigest(r.home).value)
  }

  lemma OpensIff(hash: Hash, text: string, r: Request)
    requires Adds(hash, text, r) && Unbroken(r)
    ensures Opens(hash, ReadAs(NewEntry(hash, text, r)), r.password) <==> Accepts(hash, r)
  {
  }

  /** A new account accepts the password it was made with exactly when its name fits and its line takes the password. */
  lemma LogsInAfterAddIff(hash: Hash, text: string, r: Request)
    requires Adds(hash, text, r) && Terminated(text) && Unbroken(r)
    ensures LogsIn(hash, Entries(FileStep(hash, text, r).value), 0, r.user, r.password) <==>
            |r.user| < NAME_WIDTH && Accepts(hash, r)
  {
    if |r.user| < NAME_WIDTH {
      AddWrites(hash, text, r);
      FirstAfterAdd(hash, text, r, r.user);
      OpensIff(hash, text, r);
    } else {
      LongNameMissed(FileStep(hash, text, r).value, r.user);
    }
  }

  /** After a change of password the account accepts the new one. */
  lemma LogsInAfterChange(hash: Hash, text: string, r: Request)
    requires Changes(hash, text, r) && SaltOk(r)
    ensures LogsIn(hash, Entries(FileStep(hash, text, r).value), 0, r.user, r.password)
  {
    FirstAfterChange(hash, text, r, r.user);
  }

  lemma {:induction false} FirstRewritten(lines: seq<string>, user: string, e: Entry, who: string,
                                          read: string -> Option<Entry>, name: string -> string)
    requires NamesAgree(lines, read, name) && e.name == user
    ensures First(Rewritten(lines, user, e, read, name), ByName(who)) ==
            if who != user then First(Readable(lines, read), ByName(who))
            else if LinesNamed(lines, user, name) > 0 then Some(e) else None
  {
    if lines != [] {
      var l, rest := lines[0], lines[1..];
      FirstRewritten(rest, user, e, who, read, name);
      FirstInJoin(if name(l) == user then [e] else One(read(l)), Rewritten(rest, user, e, read, name), ByName(who));
      FirstInJoin(One(read(l)), Readable(rest, read), ByName(who));
    }
  }

  lemma FirstAfterChange(hash: Hash, text: string, r: Request, who: string)
    requires Changes(hash, text, r) && SaltOk(r)
    ensures First(Entries(text), ByName(r.user)).Some?
    ensures First(Entries(FileStep(hash, text, r).value), ByName(who)) ==
            if who != r.user then First(Entries(text), ByName(who)) else Some(Changed(hash, text, r))
  {
    ChangeRewrites(hash, text, r);
    ChangedGood(hash, text, r);
    ParsedNames(Lines(text));
    BearingSome(text, r.user);
    FirstRewritten(Lines(text), r.user, Changed(hash, text, r), who, Parsed, NameOf);
  }

  ghost predicate LogInAlike(hash: Hash, before: seq<Entry>, after: seq<Entry>, who: string) {
    forall caller: U32, password: string ::
      LogsIn(hash, before, caller, who, password) <==> LogsIn(hash, after, caller, who, password)
  }

  /** A request's user cut to its buffer, if that is another name which nobody had, with a line that takes some password. */
  ghost predicate GainsLogin(hash: Hash, text: string, r: Request, who: string) {
    && r.UserAdd? && who == Fit(r.user, NAME_WIDTH) && First(Entries(text), ByName(who)).None?
    && exists password: string :: Opens(hash, ReadAs(NewEntry(hash, text, r)), password)
  }

  /** A granted request leaves everyone else's logins alone, except that a long name lets its beginning log in. */
  lemma OthersLogInAlikeIff(hash: Hash, text: string, r: Request, who: string)
    requires FileStep(hash, text, r).Some? && Terminated(text) && Unbroken(r) && who != r.user
    ensures LogInAlike(hash, Entries(text), Entries(FileStep(hash, text, r).value), who) <==>
            !GainsLogin(hash, text, r, who)
    ensures r.UserAdd? && Clean(r.home) ==>
              (GainsLogin(hash, text, r, who) <==>
               who == Fit(r.user, NAME_WIDTH) && First(Entries(text), ByName(who)).None?)
  {
    var before, after := Entries(text), Entries(FileStep(hash, text, r).value);
    if r.Passwd? {
      FirstAfterChange(hash, text, r, who);
      SameFirstAlike(hash, before, after, who);
    } else {
      FirstAfterAdd(hash, text, r, who);
      assert Clean(r.home) ==> Opens(hash, ReadAs(NewEntry(hash, text, r)), r.password);
      if First(before, ByName(who)).None? && who == Fit(r.user, NAME_WIDTH) {
        NewAlikeIff(hash, before, after, who, ReadAs(NewEntry(hash, text, r)));
      } else {
        SameFirstAlike(hash, before, after, who);
      }
    }
  }

  lemma SameFirstAlike(hash: Hash, before: seq<Entry>, after: seq<Entry>, who: string)
    requires First(before, ByName(who)) == First(after, ByName(who))
    ensures LogInAlike(hash, before, after, who)
  {
  }

  lemma NewAlikeIff(hash: Hash, before: seq<Entry>, after: seq<Entry>, who: string, e: Option<Entry>)
    requires First(before, ByName(who)).None? && First(after, ByName(who)) == e
    ensures LogInAlike(hash, before, after, who) <==> !exists password: string :: Opens(hash, e, password)
  {
    if password: string :| Opens(hash, e, password) {
      assert LogsIn(hash, after, 0, who, password) && !LogsIn(hash, before, 0, who, password);
    } else {
      forall caller: U32, password: string ensures !LogsIn(hash, after, caller, who, password) {
        assert !Opens(hash, e, password);
      }
    }
  }
}
