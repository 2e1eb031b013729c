/** The server that owns the account file, reading and rewriting it in place. */
module Authd {
  import opened AccountLines
  import opened AccountFile
  import opened Accounts
  import opened Bytes
  import opened Wrappers

  // A line as read into its buffers, the digest still in hexadecimal.
  datatype Buffers = Buffers(name: string, uid: U32, gid: U32, home: string, salt: string, iterations: U32, hex: string)

  function Buffered(line: string): Buffers {
    Buffers(Field(line, NAME_WIDTH), NumberAt(line, 1), NumberAt(line, 2), Field(Tail(line, 3), HOME_WIDTH),
            Field(Tail(line, 4), SALT_WIDTH), NumberAt(line, 5), Field(Tail(line, 6), HEX_WIDTH))
  }

  /** Where the line at an offset ends, and where the next one starts. */
  function EndOf(text: string, offset: nat): (end: nat)
    requires offset <= |text|
    ensures offset <= end <= |text|
  {
    offset + LineEnd(text[offset..])
  }

  function NextOf(text: string, offset: nat): (next: nat)
    requires offset < |text|
    ensures offset < next <= |text|
  {
    if EndOf(text, offset) < |text| then EndOf(text, offset) + 1 else EndOf(text, offset)
  }

  method FindLineEnd(text: string, offset: nat) returns (end: nat)
    requires offset <= |text|
    ensures end == EndOf(text, offset)
  {
    end := offset;
    while end < |text| && text[end] != '\n'
      invariant offset <= end <= |text| && EndOf(text, end) == EndOf(text, offset)
    {
      assert text[end..][1..] == text[end + 1..];
      end := end + 1;
    }
  }

  method TakeNumber(text: string, start: nat, end: nat, ghost line: string, ghost k: nat) returns (v: U32, next: nat)
    requires start <= end <= |text| && text[start..end] == Tail(line, k)
    ensures start <= next <= end && v == NumberAt(line, k) && text[next..end] == Tail(line, k + 1)
  {
    var field;
    field, next := TakeField(text, start, end, FIELD_WIDTH);
    TailMore(line, k);
    v := ParseU32(field);
  }

  method TakeText(text: string, start: nat, end: nat, width: nat, ghost line: string, ghost k: nat)
    returns (field: string, next: nat)
    requires start <= end <= |text| && text[start..end] == Tail(line, k) && width > 0
    ensures start <= next <= end && field == Field(Tail(line, k), width) && text[next..end] == Tail(line, k + 1)
  {
    field, next := TakeField(text, start, end, width);
    TailMore(line, k);
  }

  method ReadLine(text: string, start: nat, end: nat) returns (b: Buffers)
    requires start <= end <= |text|
    ensures b == Buffered(text[start..end])
  {
    ghost var line := text[start..end];
    var name, p := TakeText(text, start, end, NAME_WIDTH, line, 0);
    var uid, gid, home, salt, iterations, hex;
    uid, p := TakeNumber(text, p, end, line, 1);
    gid, p := TakeNumber(text, p, end, line, 2);
    home, p := TakeText(text, p, end, HOME_WIDTH, line, 3);
    salt, p := TakeText(text, p, end, SALT_WIDTH, line, 4);
    iterations, p := TakeNumber(text, p, end, line, 5);
    hex, p := TakeText(text, p, end, HEX_WIDTH, line, 6);
    b := Buffers(name, uid, gid, home, salt, iterations, hex);
  }

  function Complete(b: Buffers, d: seq<Byte>): Entry
    requires |d| == 32
  {
    Entry(b.name, b.uid, b.gid, b.home, b.salt, b.iterations, d)
  }

  lemma ParsedBuffers(line: string)
    ensures var b := Buffered(line); var d := ParseHex([], b.hex, 32);
            Parsed(line) == if b.name == [] || d.None? then None else Some(Complete(b, d.value))
  {
  }

  predicate Wanted(b: Buffers, key: Key) {
    match key case ByName(name) => b.name == name case ByUid(uid) => b.uid == uid
  }

  function Pick(e: Option<Entry>, key: Key): Option<Entry> { if e.Some? && Fits(e.value, key) then e else None }

  function Else<T>(a: Option<T>, b: Option<T>): Option<T> { if a.Some? then a else b }

  function Known(text: string, key: Key): Option<Entry> { First(Entries(text), key) }

  lemma FirstInLine(text: string, key: Key)
    requires text != []
    ensures Known(text, key) == Else(Pick(Parsed(Line(text)), key), Known(After(text), key))
  {
    FirstInOne(Parsed(Line(text)), Entries(After(text)), key);
    assert Lines(text)[1..] == Lines(After(text));
  }

  lemma FirstInOne(e: Option<Entry>, es: seq<Entry>, key: Key)
    ensures First(One(e) + es, key) == Else(Pick(e, key), First(es, key))
  {
    if e.Some? {
      assert (One(e) + es)[1..] == es;
    } else {
      assert One(e) + es == es;
    }
  }

  lemma NextLine(text: string, offset: nat)
    requires offset < |text|
    ensures text[offset..EndOf(text, offset)] == Line(text[offset..])
    ensures text[NextOf(text, offset)..] == After(text[offset..])
  {
  }

  function KnownFrom(text: string, offset: nat, key: Key): Option<Entry>
    requires offset <= |text|
  {
    Known(text[offset..], key)
  }

  lemma KnownInLine(text: string, offset: nat, key: Key)
    requires offset < |text|
    ensures KnownFrom(text, offset, key) ==
            Else(Pick(Parsed(text[offset..EndOf(text, offset)]), key), KnownFrom(text, NextOf(text, offset), key))
  {
    NextLine(text, offset);
    FirstInLine(text[offset..], key);
  }

  /** One line looked at: the account, if it is the one wanted and its digest is sound. */
  method Match(b: Buffers, key: Key, ghost line: string) returns (r: Option<Entry>)
    requires b == Buffered(line)
    ensures r == Pick(Parsed(line), key)
  {
    ParsedBuffers(line);
    r := None;
    if b.name != [] && Wanted(b, key) {
      var d := ParseDigest(b.hex);
      if d.Some? {
        r := Some(Complete(b, d.value));
      }
    }
  }

  /** One turn of the search. */
  method LookAt(text: string, offset: nat, key: Key) returns (r: Option<Entry>, next: nat)
    requires offset < |text|
    ensures next == NextOf(text, offset)
    ensures KnownFrom(text, offset, key) == Else(r, KnownFrom(text, next, key))
  {
    var end := FindLineEnd(text, offset);
    KnownInLine(text, offset, key);
    var b := ReadLine(text, offset, end);
    r := Match(b, key, text[offset..end]);
    next := if end < |text| then end + 1 else end;
  }

  method Find(text: string, key: Key) returns (r: Option<Entry>)
    ensures r == Known(text, key)
  {
    var offset := 0;
    assert text[0..] == text;
    while offset < |text|
      invariant 0 <= offset <= |text| && KnownFrom(text, offset, key) == Known(text, key)
      decreases |text| - offset
    {
      var next;
      r, next := LookAt(text, offset, key);
      if r.Some? {
        return;
      }
      offset := next;
    }
    r := None;
  }

  method CheckClean(s: string) returns (ok: bool)
    ensures ok == Clean(s)
  {
    var i := 0;
    while i < |s|
      invariant 0 <= i <= |s| && Clean(s[..i])
    {
      if IsStop(s[i]) {
        return false;
      }
      i := i + 1;
    }
    assert s[..i] == s;
    return true;
  }

  method UidOfLine(text: string, start: nat, end: nat) returns (uid: U32)
    requires start <= end <= |text|
    ensures uid == NumberAt(text[start..end], 1)
  {
    ghost var line := text[start..end];
    var name, p := TakeText(text, start, end, FIELD_WIDTH, line, 0);
    uid, p := TakeNumber(text, p, end, line, 1);
  }

  function HighestFrom(text: string, offset: nat, h: nat): (r: nat)
    requires offset <= |text| && h < ORDINARY_END
    ensures r < ORDINARY_END
  {
    Highest(text[offset..], h)
  }

  lemma HighestInLine(text: string, offset: nat, h: nat)
    requires offset < |text| && h < ORDINARY_END
    ensures var uid := NumberAt(text[offset..EndOf(text, offset)], 1);
            HighestFrom(text, offset, h) ==
            HighestFrom(text, NextOf(text, offset), if h < uid < ORDINARY_END then uid else h)
  {
    NextLine(text, offset);
  }

  lemma HighestEnds(text: string, h: nat)
    requires h < ORDINARY_END
    ensures HighestFrom(text, |text|, h) == h && HighestFrom(text, 0, 999) + 1 == PickUid(text)
  {
    assert text[0..] == text && text[|text|..] == [];
  }

  method Raise(text: string, offset: nat, highest: nat) returns (h: nat, next: nat)
    requires offset < |text| && highest < ORDINARY_END
    ensures next == NextOf(text, offset) && h < ORDINARY_END
    ensures HighestFrom(text, next, h) == HighestFrom(text, offset, highest)
  {
    var end := FindLineEnd(text, offset);
    HighestInLine(text, offset, highest);
    var taken := UidOfLine(text, offset, end);
    h := if highest < taken < ORDINARY_END then taken else highest;
    next := if end < |text| then end + 1 else end;
  }

  method NextFreeUid(text: string) returns (uid: U32)
    ensures uid == PickUid(text)
  {
    var highest: nat, offset: nat := 999, 0;
    while offset < |text|
      invariant offset <= |text| && highest < ORDINARY_END
      invariant HighestFrom(text, offset, highest) == HighestFrom(text, 0, 999)
      decreases |text| - offset
    {
      highest, offset := Raise(text, offset, highest);
    }
    HighestEnds(text, highest);
    uid := highest + 1;
  }

  /** A line put together field by field. */
  method WriteLine(e: Entry) returns (line: string)
    ensures line == Rendered(e)
  {
    var uid := PutU32(e.uid);
    var gid := PutU32(e.gid);
    var iterations := PutU32(e.iterations);
    var hex := PutDigest(e.digest);
    line := e.name + (":" + (uid + (":" + (gid + (":" + (e.home + (":" + (e.salt + (":" + (iterations + (":" + hex)))))))))));
    RenderedParts(e);
  }

  lemma RenderedParts(e: Entry)
    ensures Rendered(e) == e.name + (":" + (Digits(e.uid) + (":" + (Digits(e.gid) + (":" + (e.home + (":" +
                           (e.salt + (":" + (Digits(e.iterations) + (":" + HexOf(e.digest))))))))))))
  {
    assert Suffix(e, 5) == Digits(e.iterations) + (":" + HexOf(e.digest));
    assert Suffix(e, 4) == e.salt + (":" + Suffix(e, 5));
    assert Suffix(e, 3) == e.home + (":" + Suffix(e, 4));
    assert Suffix(e, 2) == Digits(e.gid) + (":" + Suffix(e, 3));
    assert Suffix(e, 1) == Digits(e.uid) + (":" + Suffix(e, 2));
  }

  function RewriteFrom(text: string, offset: nat, user: string, body: string): string
    requires offset <= |text|
  {
    Rewrite(text[offset..], user, body)
  }

  function NewLine(line: string, user: string, body: string): string {
    if Field(line, NAME_WIDTH) == user then body else line
  }

  lemma RewriteInLine(text: string, offset: nat, user: string, body: string)
    requires offset < |text|
    ensures RewriteFrom(text, offset, user, body) ==
            NewLine(text[offset..EndOf(text, offset)], user, body) + ("\n" + RewriteFrom(text, NextOf(text, offset), user, body))
  {
    NextLine(text, offset);
  }

  lemma RewriteEnds(text: string, user: string, body: string)
    ensures RewriteFrom(text, 0, user, body) == Rewrite(text, user, body) && RewriteFrom(text, |text|, user, body) == []
  {
    assert text[0..] == text && text[|text|..] == [];
  }

  lemma LineAppended(out: string, line: string, rest: string)
    ensures out + (line + ("\n" + rest)) == out + line + "\n" + rest
  {
  }

  method RewriteLine(text: string, offset: nat, user: string, body: string) returns (line: string, next: nat)
    requires offset < |text|
    ensures next == NextOf(text, offset)
    ensures RewriteFrom(text, offset, user, body) == line + ("\n" + RewriteFrom(text, next, user, body))
  {
    var end := FindLineEnd(text, offset);
    var name, p := TakeField(text, offset, end, NAME_WIDTH);
    line := if name == user then body else text[offset..end];
    RewriteInLine(text, offset, user, body);
    next := if end < |text| then end + 1 else end;
  }

  /** The file with every line of one user replaced. */
  method RewriteFile(text: string, user: string, body: string) returns (out: string)
    ensures out == Rewrite(text, user, body)
  {
    out := [];
    var offset: nat := 0;
    RewriteEnds(text, user, body);
    while offset < |text|
      invariant offset <= |text| && Rewrite(text, user, body) == out + RewriteFrom(text, offset, user, body)
      decreases |text| - offset
    {
      var line;
      line, offset := RewriteLine(text, offset, user, body);
      LineAppended(out, line, RewriteFrom(text, offset, user, body));
      out := out + line + "\n";
    }
  }

  /** The public half of an account, which carries no secret. */
  function PublicLine(e: Entry): string {
    e.name + (":x:" + (Digits(e.uid) + (":" + (Digits(e.gid) + (":" + (e.home + ":/bin/sh.elf\n"))))))
  }

  /** What may be asked of the server. Whoever asks is known from the kernel. */
  datatype Message =
    | Edit(request: Request)
    | Login(caller: U32, user: string, password: string)
    | NameOfUid(uid: U32)
    | Exists(user: string)

  datatype Reply = Reply(status: int, uid: U32, gid: U32, text: string)

  const NO := Reply(-1, 0, 0, [])

  function LoginReply(hash: Hash, found: Option<Entry>, caller: U32, password: string): Reply {
    if found.Some? && Admits(hash, found.value, caller, password)
    then Reply(0, found.value.uid, found.value.gid, found.value.home) else NO
  }

  function ReplyTo(hash: Hash, text: string, m: Message): Reply {
    match m
    case Edit(r) => if FileStep(hash, text, r).Some? then Reply(0, 0, 0, []) else NO
    case Login(caller, user, password) => LoginReply(hash, Known(text, ByName(user)), caller, password)
    case NameOfUid(uid) =>
      var found := Known(text, ByUid(uid)); if found.Some? then Reply(0, 0, 0, found.value.name) else NO
    case Exists(user) => Reply(if Known(text, ByName(user)).Some? then 1 else 0, 0, 0, [])
  }

  function Afterwards(hash: Hash, text: string, m: Message): string { if m.Edit? then Next(hash, text, m.request) else text }

  function Replies(hash: Hash, text: string, messages: seq<Message>): seq<Reply>
    decreases |messages|
  {
    if messages == [] then []
    else [ReplyTo(hash, text, messages[0])] + Replies(hash, Afterwards(hash, text, messages[0]), messages[1..])
  }

  function Edits(messages: seq<Message>): seq<Request> {
    if messages == [] then []
    else (if messages[0].Edit? then [messages[0].request] else []) + Edits(messages[1..])
  }

  lemma RunOn(hash: Hash, text: string, messages: seq<Message>, i: nat)
    requires i < |messages|
    ensures Run(hash, text, Edits(messages[i..])) ==
            Run(hash, Afterwards(hash, text, messages[i]), Edits(messages[i + 1..]))
  {
    var m, rest := messages[i], Edits(messages[i + 1..]);
    assert messages[i..][0] == m && messages[i..][1..] == messages[i + 1..];
    if m.Edit? {
      assert ([m.request] + rest)[1..] == rest;
    } else {
      assert [] + rest == rest;
    }
  }

  /** One message more. */
  lemma RepliesOn(hash: Hash, text: string, messages: seq<Message>, i: nat, replies: seq<Reply>)
    requires i < |messages|
    ensures replies + Replies(hash, text, messages[i..]) ==
            replies + [ReplyTo(hash, text, messages[i])] + Replies(hash, Afterwards(hash, text, messages[i]), messages[i + 1..])
  {
    assert messages[i..][0] == messages[i] && messages[i..][1..] == messages[i + 1..];
  }

  // ---- what one message does to the answers of the next ----

  /** An account just added is there: it logs in with its password, to its own ids and home directory. */
  lemma AddThenLogin(hash: Hash, text: string, r: Request)
    requires Adds(hash, text, r) && Terminated(text) && Orderly(r) && |r.user| < NAME_WIDTH
    ensures ReplyTo(hash, text, Edit(r)) == Reply(0, 0, 0, [])
    ensures var e := NewEntry(hash, text, r);
            ReplyTo(hash, Afterwards(hash, text, Edit(r)), Login(0, r.user, r.password)) ==
            Reply(0, e.uid, e.gid, Fit(r.home, HOME_WIDTH))
  {
    AddWrites(hash, text, r);
    FirstAfterAdd(hash, text, r, r.user);
  }

  /** And its uid then has a name, its own exactly when nobody had the uid. */
  lemma AddThenName(hash: Hash, text: string, r: Request)
    requires Adds(hash, text, r) && Terminated(text) && Orderly(r) && |r.user| < NAME_WIDTH
    ensures var named := ReplyTo(hash, Afterwards(hash, text, Edit(r)), NameOfUid(NewEntry(hash, text, r).uid));
            named.status == 0 && (named.text == r.user <==> UidLeft(text, r))
  {
    var e := NewEntry(hash, text, r);
    AddWrites(hash, text, r);
    AddShown(hash, text, r);
    FirstOfMore(Entries(text), Shown(e), ByUid(e.uid));
    NewUidUsedIff(hash, text, r);
    UsedIsFirst(Entries(text), e.uid);
    FirstIff(Entries(text), ByName(r.user));
  }

  lemma UsedIsFirst(es: seq<Entry>, uid: U32)
    ensures Used(es, uid) <==> First(es, ByUid(uid)).Some?
    ensures First(es, ByUid(uid)).Some? ==> First(es, ByUid(uid)).value in es
  {
    FirstIff(es, ByUid(uid));
    if Used(es, uid) {
      var i :| 0 <= i < |es| && es[i].uid == uid;
      assert Fits(es[i], ByUid(uid));
    }
  }

  /** After a change of password exactly those passwords log in that hash like the new one, whatever did before. */
  lemma ChangeThenLoginIff(hash: Hash, text: string, r: Request, password: string)
    requires Changes(hash, text, r) && SaltOk(r)
    ensures ReplyTo(hash, text, Edit(r)) == Reply(0, 0, 0, [])
    ensures ReplyTo(hash, Afterwards(hash, text, Edit(r)), Login(0, r.user, password)).status == 0 <==>
            hash(r.salt, password, ITERATIONS) == hash(r.salt, r.password, ITERATIONS)
  {
    FirstAfterChange(hash, text, r, r.user);
  }

  class Server {
    var shadow: string
    var public: string

    /** Whether an account may be added, and which. */
    method GrantAdd(hash: Hash, r: Request) returns (e: Option<Entry>)
      requires r.UserAdd?
      ensures e == Granted(hash, Entries(shadow), r, PickUid(shadow))
    {
      if r.caller != 0 || r.user == [] {
        return None;
      }
      var known := Find(shadow, ByName(r.user));
      if known.Some? {
        return None;
      }
      var uid, gid := r.uid, r.gid;
      if uid == 0 {
        uid := NextFreeUid(shadow);
        gid := uid;
      } else {
        var taken := Find(shadow, ByUid(uid));
        if taken.Some? {
          return None;
        }
      }
      var clean := CheckClean(r.user);
      if !clean {
        return None;
      }
      e := Some(Entry(r.user, uid, gid, r.home, r.salt, ITERATIONS, hash(r.salt, r.password, ITERATIONS)));
    }

    /** Answers a request to add an account; the file changes only if it is granted. */
    method AddUser(hash: Hash, r: Request) returns (ok: bool)
      requires r.UserAdd?
      modifies this
      ensures FileStep(hash, old(shadow), r) == if ok then Some(shadow) else None
      ensures !ok ==> shadow == old(shadow)
      ensures public == old(public) + if ok then PublicLine(NewEntry(hash, old(shadow), r)) else []
    {
      var e := GrantAdd(hash, r);
      if e.None? {
        return false;
      }
      PutIfGranted(shadow, r, e, e.value);
      var line := WriteLine(e.value);
      var half := WritePublic(e.value);
      shadow := shadow + (line + "\n");
      public := public + half;
      return true;
    }

    static method WritePublic(e: Entry) returns (line: string)
      ensures line == PublicLine(e)
    {
      var uid := PutU32(e.uid);
      var gid := PutU32(e.gid);
      line := e.name + (":x:" + (uid + (":" + (gid + (":" + (e.home + ":/bin/sh.elf\n"))))));
    }

    static method Permit(hash: Hash, r: Request, e: Entry) returns (ok: bool)
      requires r.Passwd?
      ensures ok == MayChange(hash, r, e)
    {
      if r.caller != 0 {
        if r.caller != e.uid || r.given == [] {
          return false;
        }
        var digest := hash(e.salt, r.given, e.iterations);
        return digest == e.digest;
      }
      return true;
    }

    /** Whether a password may be changed, and what the account then is. */
    method GrantChange(hash: Hash, r: Request) returns (renewed: Option<Entry>)
      requires r.Passwd?
      ensures renewed == Granted(hash, Entries(shadow), r, PickUid(shadow))
    {
      var found := Find(shadow, ByName(r.user));
      if found.None? {
        return None;
      }
      var ok := Permit(hash, r, found.value);
      if !ok {
        return None;
      }
      renewed := Some(Renewed(hash, r, found.value));
    }

    /** Answers a request to change a password. */
    method ChangePassword(hash: Hash, r: Request) returns (ok: bool)
      requires r.Passwd?
      modifies this`shadow
      ensures FileStep(hash, old(shadow), r) == if ok then Some(shadow) else None
      ensures !ok ==> shadow == old(shadow)
    {
      var renewed := GrantChange(hash, r);
      if renewed.None? {
        return false;
      }
      PutIfGranted(shadow, r, renewed, renewed.value);
      var body := WriteLine(renewed.value);
      shadow := RewriteFile(shadow, r.user, body);
      return true;
    }

    method Handle(hash: Hash, r: Request) returns (ok: bool)
      modifies this
      ensures ok == FileStep(hash, old(shadow), r).Some? && shadow == Next(hash, old(shadow), r)
    {
      if r.UserAdd? {
        ok := AddUser(hash, r);
      } else {
        ok := ChangePassword(hash, r);
      }
    }

    method LogIn(hash: Hash, caller: U32, user: string, password: string) returns (reply: Reply)
      ensures reply == ReplyTo(hash, shadow, Login(caller, user, password))
    {
      var found := Find(shadow, ByName(user));
      if found.None? {
        return NO;
      }
      var e := found.value;
      if caller != 0 && e.uid != 0 {
        return NO;
      }
      var digest := hash(e.salt, password, e.iterations);
      reply := if digest == e.digest then Reply(0, e.uid, e.gid, e.home) else NO;
    }

    /** Answers one message. */
    method Respond(hash: Hash, m: Message) returns (reply: Reply)
      modifies this
      ensures reply == ReplyTo(hash, old(shadow), m) && shadow == Afterwards(hash, old(shadow), m)
    {
      match m
      case Edit(r) =>
        var ok := Handle(hash, r);
        reply := if ok then Reply(0, 0, 0, []) else NO;
      case Login(caller, user, password) => reply := LogIn(hash, caller, user, password);
      case NameOfUid(uid) =>
        var found := Find(shadow, ByUid(uid));
        reply := if found.Some? then Reply(0, 0, 0, found.value.name) else NO;
      case Exists(user) =>
        var found := Find(shadow, ByName(user));
        reply := Reply(if found.Some? then 1 else 0, 0, 0, []);
    }

    /** Answers messages one after another. */
    method Serve(hash: Hash, messages: seq<Message>) returns (replies: seq<Reply>)
      modifies this
      ensures shadow == Run(hash, old(shadow), Edits(messages))
      ensures replies == Replies(hash, old(shadow), messages)
    {
      replies := [];
      var i: nat := 0;
      while i < |messages|
        invariant i <= |messages|
        invariant Run(hash, shadow, Edits(messages[i..])) == Run(hash, old(shadow), Edits(messages))
        invariant replies + Replies(hash, shadow, messages[i..]) == Replies(hash, old(shadow), messages)
      {
        RunOn(hash, shadow, messages, i);
        RepliesOn(hash, shadow, messages, i, replies);
        var reply := Respond(hash, messages[i]);
        replies := replies + [reply];
        i := i + 1;
      }
    }
  }
}
