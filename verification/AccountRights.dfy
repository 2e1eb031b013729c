/** Who may do what to the account file, told by what the server answers. */
module AccountRights {
  import opened AccountLines
  import opened AccountFile
  import opened Accounts
  import opened Authd
  import opened Wrappers

  /** A password that would at this moment let root log in as the user, to a given uid. */
  predicate Knows(hash: Hash, text: string, user: string, password: string, uid: U32) {
    var login := ReplyTo(hash, text, Login(0, user, password));
    password != [] && login.status == 0 && login.uid == uid
  }

  lemma StepSome(hash: Hash, text: string, r: Request)
    ensures FileStep(hash, text, r).Some? <==> Granted(hash, Entries(text), r, PickUid(text)).Some?
  {
  }

  lemma OldPassword(hash: Hash, es: seq<Entry>, r: Request, next: U32)
    requires r.Passwd?
    ensures var login := LoginReply(hash, First(es, ByName(r.user)), 0, r.given);
            Granted(hash, es, r, next).Some? <==>
            && First(es, ByName(r.user)).Some?
            && (r.caller == 0 || (r.given != [] && login.status == 0 && login.uid == r.caller))
  {
  }

  lemma EditStatus(hash: Hash, text: string, r: Request)
    ensures ReplyTo(hash, text, Edit(r)).status == 0 <==> FileStep(hash, text, r).Some?
  {
  }

  lemma ExistsStatus(hash: Hash, text: string, user: string)
    ensures ReplyTo(hash, text, Exists(user)).status == if First(Entries(text), ByName(user)).Some? then 1 else 0
  {
  }

  lemma LoginIs(hash: Hash, text: string, caller: U32, user: string, password: string)
    ensures ReplyTo(hash, text, Login(caller, user, password)) ==
            LoginReply(hash, First(Entries(text), ByName(user)), caller, password)
  {
  }

  lemma KnowsIs(hash: Hash, text: string, user: string, password: string, uid: U32)
    ensures var login := LoginReply(hash, First(Entries(text), ByName(user)), 0, password);
            Knows(hash, text, user, password, uid) <==> password != [] && login.status == 0 && login.uid == uid
  {
    LoginIs(hash, text, 0, user, password);
  }

  lemma ChangeSomeIff(hash: Hash, text: string, r: Request)
    requires r.Passwd?
    ensures FileStep(hash, text, r).Some? <==>
            First(Entries(text), ByName(r.user)).Some? && (r.caller == 0 || Knows(hash, text, r.user, r.given, r.caller))
  {
    StepSome(hash, text, r);
    OldPassword(hash, Entries(text), r, PickUid(text));
    KnowsIs(hash, text, r.user, r.given, r.caller);
  }

  /** A password is changed for a user there is, by root or by that user with the old password. */
  lemma ChangeGrantedIff(hash: Hash, text: string, r: Request)
    requires r.Passwd?
    ensures ReplyTo(hash, text, Edit(r)).status == 0 <==>
            && ReplyTo(hash, text, Exists(r.user)).status == 1
            && (r.caller == 0 || Knows(hash, text, r.user, r.given, r.caller))
  {
    EditStatus(hash, text, r);
    ExistsStatus(hash, text, r.user);
    ChangeSomeIff(hash, text, r);
  }

  /** An account is added by root alone, under a name and a uid nobody has. */
  lemma AddGrantedIff(hash: Hash, text: string, r: Request)
    requires r.UserAdd?
    ensures ReplyTo(hash, text, Edit(r)).status == 0 <==>
            && r.caller == 0 && r.user != [] && Clean(r.user)
            && ReplyTo(hash, text, Exists(r.user)).status == 0
            && (r.uid == 0 || ReplyTo(hash, text, NameOfUid(r.uid)).status != 0)
  {
  }

  /** Anyone but root may become root only, and by the same password as root would. */
  lemma LoginIff(hash: Hash, text: string, caller: U32, user: string, password: string)
    ensures var login := ReplyTo(hash, text, Login(caller, user, password));
            var asRoot := ReplyTo(hash, text, Login(0, user, password));
            && (login.status == 0 <==> asRoot.status == 0 && (caller == 0 || asRoot.uid == 0))
            && (login.status == 0 ==> login == asRoot)
  {
  }

  // ---- the public half ----

  lemma PublicTail(e: Entry)
    ensures PublicLine(e) == e.name + (":" + ("x" + (":" + (Digits(e.uid) + (":" + (Digits(e.gid) + (":" +
                             (e.home + (":" + "/bin/sh.elf\n")))))))))
  {
    assert ":x:" == ":" + ("x" + ":");
    assert ":/bin/sh.elf\n" == ":" + "/bin/sh.elf\n";
  }

  lemma Column(f: string, tail: string, line: string, k: nat)
    requires Tail(line, k) == f + (":" + tail) && Clean(f)
    ensures Tail(line, k + 1) == tail
    ensures forall width: nat :: width > |f| ==> Field(Tail(line, k), width) == f
  {
    TailMore(line, k);
    FieldBack(f, tail, 1);
    forall width: nat | width > |f| ensures Field(Tail(line, k), width) == f {
      FieldBack(f, tail, width);
    }
  }

  /** The public line of an account says its name, its uid and gid, and its home directory, in that order, and no digest. */
  lemma PublicBack(e: Entry)
    requires Clean(e.name) && Clean(e.home)
    ensures var line := PublicLine(e);
            && Field(line, |e.name| + 1) == e.name && Field(Tail(line, 1), 2) == "x"
            && NumberAt(line, 2) == e.uid && NumberAt(line, 3) == e.gid
            && Field(Tail(line, 4), |e.home| + 1) == e.home && Tail(line, 5) == "/bin/sh.elf\n"
  {
    var line := PublicLine(e);
    var shell := "/bin/sh.elf\n";
    var home := e.home + (":" + shell);
    var gid := Digits(e.gid) + (":" + home);
    var uid := Digits(e.uid) + (":" + gid);
    PublicTail(e);
    NumberFits(e.uid);
    NumberFits(e.gid);
    NumberBack(e.uid);
    NumberBack(e.gid);
    Column(e.name, "x" + (":" + uid), line, 0);
    Column("x", uid, line, 1);
    Column(Digits(e.uid), gid, line, 2);
    Column(Digits(e.gid), home, line, 3);
    Column(e.home, shell, line, 4);
  }

  // ---- over a run ----

  /** A request by which a user's account may change. */
  predicate Authorised(hash: Hash, text: string, r: Request, user: string) {
    r.Passwd? && r.user == user && (r.caller == 0 || Knows(hash, text, user, r.given, r.caller))
  }

  lemma {:induction false} FirstKept(es: seq<Entry>, more: seq<Entry>, key: Key)
    requires First(es, key).Some?
    ensures First(es + more, key) == First(es, key)
  {
    assert (es + more)[0] == es[0] && (es + more)[1..] == es[1..] + more;
    if !Fits(es[0], key) {
      FirstKept(es[1..], more, key);
    }
  }

  /** A request leaves an account alone unless it is one of those. */
  lemma StepKeeps(hash: Hash, text: string, r: Request, user: string)
    requires Terminated(text) && SaltOk(r) && First(Entries(text), ByName(user)).Some?
    ensures Terminated(Next(hash, text, r)) && First(Entries(Next(hash, text, r)), ByName(user)).Some?
    ensures First(Entries(Next(hash, text, r)), ByName(user)) != First(Entries(text), ByName(user)) ==>
              Authorised(hash, text, r, user)
  {
    if FileStep(hash, text, r).Some? {
      StepTerminated(hash, text, r);
      if r.UserAdd? {
        AddWrites(hash, text, r);
        var line := Rendered(NewEntry(hash, text, r)) + "\n";
        EntriesJoin(text, line);
        FirstKept(Entries(text), Entries(line), ByName(user));
      } else {
        FirstAfterChange(hash, text, r, user);
        ChangeSomeIff(hash, text, r);
      }
    }
  }

  lemma RunFrom(hash: Hash, text: string, requests: seq<Request>, k: nat)
    requires k < |requests|
    ensures Run(hash, text, requests[..k + 1]) == Run(hash, Next(hash, text, requests[0]), requests[1..][..k])
  {
    assert requests[..k + 1][0] == requests[0] && requests[..k + 1][1..] == requests[1..][..k];
  }

  /**
   Over every run, an account is no longer what it was only if some request was
   root's, or came from its own uid with a password that logged in at that moment.
   */
  lemma {:induction false} ChangedByRight(hash: Hash, text: string, requests: seq<Request>, user: string) returns (k: nat)
    requires Terminated(text) && AllSalted(requests) && First(Entries(text), ByName(user)).Some?
    ensures First(Entries(Run(hash, text, requests)), ByName(user)).Some?
    ensures First(Entries(Run(hash, text, requests)), ByName(user)) != First(Entries(text), ByName(user)) ==>
              k < |requests| && Authorised(hash, Run(hash, text, requests[..k]), requests[k], user)
    decreases |requests|
  {
    k := 0;
    if requests != [] {
      var r, rest := requests[0], requests[1..];
      assert r in requests && forall q :: q in rest ==> q in requests;
      StepKeeps(hash, text, r, user);
      if Authorised(hash, text, r, user) {
        assert requests[..0] == [];
        var j := ChangedByRight(hash, Next(hash, text, r), rest, user);
      } else {
        var j := ChangedByRight(hash, Next(hash, text, r), rest, user);
        if j < |rest| {
          k := j + 1;
          RunFrom(hash, text, requests, j);
        }
      }
    }
  }
}
