/** Whole runs of the server: the sessions kept in Redis refine a plain registry of the latest
    password-matched login of each id. */
module Sessions {
  import opened Wrappers
  import opened Text
  import opened Sql
  import opened RedisPool
  import opened SeqAbleObj
  import opened ComManger
  import opened HandleMsg

  /** The latest login of an id. */
  datatype Login = Login(name: string, fd: int)

  datatype World = World(server: Server, online: map<int, Login>)

  datatype Event =
    | Received(m: Msg, fd: int, e: Env)
    | LoggedOut(m: Msg, e: Env)

  /** The registry after a message: a matched login puts its id online. */
  function LogIn(w: World, m: Msg, fd: int, e: Env): map<int, Login> {
    if m.msgType == MSG_LOGIN && Matched(w.server, m, e).Some?
    then w.online[Matched(w.server, m, e).value.userid := Login(GetName(m), fd)]
    else w.online
  }

  function Next(w: World, ev: Event): World {
    match ev
    case Received(m, fd, e) => World(Handle(w.server, m, fd, e).server, LogIn(w, m, fd, e))
    case LoggedOut(m, e) => World(LogOutTask(w.server, m, e), w.online - {m.id})
  }

  ghost predicate SmallIds(s: Server) {
    forall i :: 0 <= i < |s.users| ==> IsInt32(s.users[i].userid)
  }

  /** Descriptors and ids are 32-bit, no task crashes, Redis answers logins and logouts, the name
      of a login is quotable and a defined format for the Redis commands, and the texts of a
      registration close. */
  ghost predicate Admissible(w: World, ev: Event) {
    match ev
    case Received(m, fd, e) =>
      && IsInt32(fd) && Handle(w.server, m, fd, e).Served? && SmallIds(Handle(w.server, m, fd, e).server)
      && (m.msgType == MSG_LOGIN ==> e.up1 && e.up2 && Printable(GetName(m)) && Quotable(GetName(m)))
      && (m.msgType == MSG_REG ==> Closes(GetName(m)) && Closes(GetPasswd(m)))
    case LoggedOut(m, e) => IsInt32(m.id) && e.up1 && e.up2
  }

  ghost predicate AdmissibleRun(w: World, run: seq<Event>)
    decreases |run|
  {
    run == [] || (Admissible(w, run[0]) && AdmissibleRun(Next(w, run[0]), run[1..]))
  }

  function Exec(w: World, run: seq<Event>): World
    decreases |run|
  {
    if run == [] then w else Exec(Next(w, run[0]), run[1..])
  }

  ghost function PrintedIds(online: map<int, Login>): set<string> {
    set id | id in online :: ToString(id)
  }

  ghost predicate SessionOk(s: Server, id: int, login: Login) {
    && IsInt32(id) && IsInt32(login.fd) && |login.name| <= 61
    && HasRow(s.users, id, login.name)
    && Printable(login.name)
    && (IsWord(login.name) ==> HasHash(s.ks, id, InRedis(login.name), login.fd))
  }

  /** No hash outlives its session. */
  ghost predicate OnlySessions(ks: Keyspace, online: map<int, Login>) {
    forall k :: k in ks && k != SESSIONS ==> k in PrintedIds(online)
  }

  /** The keyspace and the registry say the same, and the table backs them. */
  ghost predicate Consistent(w: World) {
    && UsersInv(w.server.users) && SmallIds(w.server)
    && WellTyped(w.server.ks)
    && Members(w.server.ks) == PrintedIds(w.online)
    && OnlySessions(w.server.ks, w.online)
    && forall id :: id in w.online ==> SessionOk(w.server, id, w.online[id])
  }

  lemma PrintedReflects(online: map<int, Login>, id: int)
    ensures ToString(id) in PrintedIds(online) <==> id in online
  {
    if ToString(id) in PrintedIds(online) {
      var id' :| id' in online && ToString(id') == ToString(id);
      ToStringInjective(id, id');
    }
  }

  lemma PrintedAdds(online: map<int, Login>, id: int, login: Login)
    ensures PrintedIds(online[id := login]) == PrintedIds(online) + {ToString(id)}
  {
    var more := online[id := login];
    forall s ensures s in PrintedIds(more) <==> s in PrintedIds(online) + {ToString(id)} {
      if s in PrintedIds(online) {
        var id' :| id' in online && ToString(id') == s;
        assert id' in more;
      }
      assert id in more;
    }
  }

  lemma PrintedRemoves(online: map<int, Login>, id: int)
    ensures PrintedIds(online - {id}) == PrintedIds(online) - {ToString(id)}
  {
    var less := online - {id};
    forall s ensures s in PrintedIds(less) <==> s in PrintedIds(online) - {ToString(id)} {
      if s in PrintedIds(online) && s != ToString(id) {
        var id' :| id' in online && ToString(id') == s;
        assert id' in less;
      }
      if s in PrintedIds(less) {
        var id' :| id' in less && ToString(id') == s;
        if s == ToString(id) { ToStringInjective(id, id'); }
      }
    }
  }

  /** A session of one id survives any change of the keyspace elsewhere. */
  lemma SessionFrame(s: Server, t: Server, id: int, login: Login)
    requires SessionOk(s, id, login)
    requires SameAt(s.ks, t.ks, ToString(id)) && HasRow(t.users, id, login.name)
    ensures SessionOk(t, id, login)
  {
  }

  lemma HandlesLogin(s: Server, m: Msg, fd: int, e: Env)
    requires m.msgType == MSG_LOGIN
    ensures Handle(s, m, fd, e) == LoginTask(s, m, fd, e)
  {
    hide NoticeText, LoginTask, RegTask, AskTask, AcceptTask, TalkTask;
    Dispatch(MSG_LOGIN);
    assert TABLE[5] == (MSG_LOGIN, UserLog);
  }

  /** Any other message changes neither the table nor the keyspace. */
  lemma OthersOnlyAnswer(s: Server, m: Msg, fd: int, e: Env)
    requires m.msgType != MSG_REG && m.msgType != MSG_LOGIN
    ensures Handle(s, m, fd, e).server.users == s.users && Handle(s, m, fd, e).server.ks == s.ks
  {
    hide LookUp, RunHandler;
    ReachesHandler(m.msgType);
    var h := LookUp(TABLE, m.msgType);
    if h.Some? {
      OthersOnlyPush(h.value, s, m, fd, e);
    }
  }

  lemma HandlesRegistration(s: Server, m: Msg, fd: int, e: Env)
    requires m.msgType == MSG_REG
    ensures Handle(s, m, fd, e) == RegTask(s, m, fd, e)
  {
    hide NoticeText, LoginTask, RegTask, AskTask, AcceptTask, TalkTask;
    Dispatch(MSG_REG);
    assert TABLE[2] == (MSG_REG, UserReg);
  }

  lemma LoginStaysConsistent(w: World, m: Msg, fd: int, e: Env)
    requires Consistent(w) && m.msgType == MSG_LOGIN && Admissible(w, Received(m, fd, e))
    ensures Consistent(Next(w, Received(m, fd, e)))
  {
    hide NoticeText, AddSession, Handle, Quotable, Matched, AskFits, Consistent;
    HandlesLogin(w.server, m, fd, e);
    LoginAddsSessionOnlyOnMatch(w.server, m, fd, e);
    var s' := LoginTask(w.server, m, fd, e).server;
    assert Next(w, Received(m, fd, e)) == World(s', LogIn(w, m, fd, e));
    if Matched(w.server, m, e).Some? {
      MatchedLoginStaysConsistent(w, s', m, fd, e);
    } else {
      SameTablesStayConsistent(w, s');
    }
  }

  /** A matched login of a quotable name has a row of that name, which is short. */
  lemma MatchedNameIsShort(w: World, m: Msg, e: Env)
    requires UsersInv(w.server.users) && Matched(w.server, m, e).Some? && Quotable(GetName(m))
    ensures HasRow(w.server.users, Matched(w.server, m, e).value.userid, GetName(m)) && |GetName(m)| <= 61
    ensures Matched(w.server, m, e).value in w.server.users
  {
    hide Quotable, Matched, GetName, Closes, InDatabase, UsersInv, Prefix;
    if !AskFits(PasswordAndIdOf, GetName(m)) {
      LongNamesMatchNothing(w.server, m, e);
    }
    QuotableCloses(GetName(m));
    MatchedAsTyped(w.server, m, e);
    FindUserFinds(w.server.users, GetName(m));
  }

  /** The invariant does not depend on the outgoing buffer. */
  lemma SameTablesStayConsistent(w: World, s: Server)
    requires Consistent(w) && s.users == w.server.users && s.ks == w.server.ks
    ensures Consistent(World(s, w.online))
  {
    forall id | id in w.online ensures SessionOk(s, id, w.online[id]) {
      SessionFrame(w.server, s, id, w.online[id]);
    }
  }

  lemma HandlesAsk(s: Server, m: Msg, fd: int, e: Env)
    requires m.msgType == MSG_ASK_FOR_FRIEND
    ensures Handle(s, m, fd, e) == AskTask(s, m, fd, e)
  {
    hide NoticeText, LoginTask, RegTask, AskTask, AcceptTask, TalkTask;
    Dispatch(MSG_ASK_FOR_FRIEND);
    assert TABLE[8] == (MSG_ASK_FOR_FRIEND, AskForFriend);
  }

  lemma MatchedLoginStaysConsistent(w: World, s: Server, m: Msg, fd: int, e: Env)
    requires Consistent(w) && m.msgType == MSG_LOGIN && Matched(w.server, m, e).Some?
    requires IsInt32(fd) && Quotable(GetName(m)) && Printable(GetName(m)) && s.users == w.server.users
    requires s.ks == AddSession(w.server.ks, Matched(w.server, m, e).value.userid, GetName(m), fd, true, true).0
    ensures Consistent(World(s, LogIn(w, m, fd, e)))
  {
    var row := Matched(w.server, m, e).value;
    var (id, login) := (row.userid, Login(GetName(m), fd));
    MatchedNameIsShort(w, m, e);
    AddSessionEffect(w.server.ks, id, login.name, fd);
    PrintedAdds(w.online, id, login);
    var online := w.online[id := login];
    forall k | k in s.ks && k != SESSIONS ensures k in PrintedIds(online) {
      assert k != ToString(id) ==> SameAt(w.server.ks, s.ks, k);
    }
    forall other | other in online ensures SessionOk(s, other, online[other]) {
      if other == id {
        if IsWord(login.name) { ShortNamesAreStorable(id, login.name, fd); }
      } else {
        if ToString(other) == ToString(id) { ToStringInjective(other, id); }
        IdIsNoSessionKey(other);
        SessionFrame(w.server, s, other, w.online[other]);
      }
    }
  }

  lemma LogOutStaysConsistent(w: World, m: Msg, e: Env)
    requires Consistent(w) && Admissible(w, LoggedOut(m, e))
    ensures Consistent(Next(w, LoggedOut(m, e)))
  {
    var w' := Next(w, LoggedOut(m, e));
    RemoveSessionEffect(w.server.ks, m.id);
    PrintedRemoves(w.online, m.id);
    forall k | k in w'.server.ks && k != SESSIONS ensures k in PrintedIds(w'.online) {
      assert k != ToString(m.id) ==> SameAt(w.server.ks, w'.server.ks, k);
    }
    forall other | other in w'.online ensures SessionOk(w'.server, other, w'.online[other]) {
      if ToString(other) == ToString(m.id) { ToStringInjective(other, m.id); }
      IdIsNoSessionKey(other);
      SessionFrame(w.server, w'.server, other, w.online[other]);
    }
  }

  /** New rows at the end leave every session as it was. */
  lemma NewRowStaysConsistent(w: World, s: Server)
    requires Consistent(w) && s.ks == w.server.ks && UsersInv(s.users) && SmallIds(s)
    requires |s.users| == |w.server.users| + 1 && s.users[..|w.server.users|] == w.server.users
    ensures Consistent(World(s, w.online))
  {
    var row := s.users[|w.server.users|];
    assert s.users == w.server.users + [row];
    forall id | id in w.online ensures SessionOk(s, id, w.online[id]) {
      FindUserStable(w.server.users, w.online[id].name, row);
      SessionFrame(w.server, s, id, w.online[id]);
    }
  }

  lemma RegistrationStaysConsistent(w: World, m: Msg, fd: int, e: Env)
    requires Consistent(w) && m.msgType == MSG_REG && Admissible(w, Received(m, fd, e))
    ensures Consistent(Next(w, Received(m, fd, e)))
  {
    hide Handle, RegTask, RegInserts, Closes, InDatabase, UsersInv, SmallIds, GetName, GetPasswd, LastOut;
    var s := Handle(w.server, m, fd, e).server;
    HandlesRegistration(w.server, m, fd, e);
    RegistrationIsSound(w.server, m, fd, e);
    if RegInserts(w.server, m, fd, e) {
      NewRowStaysConsistent(w, s);
    } else {
      SameTablesStayConsistent(w, s);
    }
  }

  lemma OthersStayConsistent(w: World, m: Msg, fd: int, e: Env)
    requires Consistent(w) && m.msgType != MSG_REG && m.msgType != MSG_LOGIN
    ensures Consistent(Next(w, Received(m, fd, e)))
  {
    hide Handle;
    OthersOnlyAnswer(w.server, m, fd, e);
    SameTablesStayConsistent(w, Handle(w.server, m, fd, e).server);
  }

  lemma StepStaysConsistent(w: World, ev: Event)
    requires Consistent(w) && Admissible(w, ev)
    ensures Consistent(Next(w, ev))
  {
    hide Handle, Consistent;
    match ev
    case LoggedOut(m, e) => LogOutStaysConsistent(w, m, e);
    case Received(m, fd, e) =>
      if m.msgType == MSG_LOGIN {
        LoginStaysConsistent(w, m, fd, e);
      } else if m.msgType == MSG_REG {
        RegistrationStaysConsistent(w, m, fd, e);
      } else {
        OthersStayConsistent(w, m, fd, e);
      }
  }

  lemma {:induction false} RunStaysConsistent(w: World, run: seq<Event>)
    requires Consistent(w) && AdmissibleRun(w, run)
    ensures Consistent(Exec(w, run))
    decreases |run|
  {
    if run != [] {
      StepStaysConsistent(w, run[0]);
      RunStaysConsistent(Next(w, run[0]), run[1..]);
    }
  }

  /** Over every serialised run: an id is online in Redis exactly when it has logged in and not
      out since; its registered username is that of the latest login; and if that name is one
      word, Redis gives back the descriptor of that login and the twice printed name, which is
      the name itself exactly without a percent sign. */
  lemma SessionsAreSound(w0: World, run: seq<Event>, id: int)
    requires Consistent(w0) && AdmissibleRun(w0, run) && IsInt32(id)
    ensures var w := Exec(w0, run);
      && (IsOnline(w.server.ks, id, true) <==> id in w.online)
      && (id in w.online ==>
            && HasRow(w.server.users, id, w.online[id].name)
            && (HasHash(w.server.ks, id, InRedis(w.online[id].name), w.online[id].fd) <==> IsWord(w.online[id].name))
            && (IsWord(w.online[id].name) ==>
                  && TalkerField(w.server.ks, id, "name", true) == Some(InRedis(w.online[id].name))
                  && TalkerFd(w.server.ks, id, true) == w.online[id].fd)
            && (InRedis(w.online[id].name) == w.online[id].name <==> '%' !in w.online[id].name))
  {
    RunStaysConsistent(w0, run);
    var w := Exec(w0, run);
    IsOnlineReadsMembers(w.server.ks, id);
    PrintedReflects(w.online, id);
    if id in w.online {
      assert SessionOk(w.server, id, w.online[id]);
      IdIsNoSessionKey(id);
      InRedisWord(w.online[id].name);
      InRedisAsGiven(w.online[id].name);
      if IsWord(w.online[id].name) {
        GettersReadHash(w.server.ks, id, InRedis(w.online[id].name), w.online[id].fd);
      }
    }
  }

  /** After any run, a matched login puts its id online in Redis with the caller's descriptor, where a
      one-word name is read back, and a logout takes its id offline, leaving nothing of it; neither
      changes who else is online. */
  lemma LoginsAndLogoutsTakeEffect(w0: World, run: seq<Event>, ev: Event, other: int)
    requires Consistent(w0) && AdmissibleRun(w0, run) && Admissible(Exec(w0, run), ev) && IsInt32(other)
    ensures var (w, w') := (Exec(w0, run), Next(Exec(w0, run), ev));
      match ev
      case LoggedOut(m, e) =>
        && !IsOnline(w'.server.ks, m.id, true) && ToString(m.id) !in w'.server.ks
        && (other != m.id ==> (IsOnline(w'.server.ks, other, true) <==> IsOnline(w.server.ks, other, true)))
      case Received(m, fd, e) =>
        m.msgType == MSG_LOGIN && Matched(w.server, m, e).Some? ==>
          var id := Matched(w.server, m, e).value.userid;
          && IsOnline(w'.server.ks, id, true) && id in w'.online
          && (IsWord(GetName(m)) ==> TalkerFd(w'.server.ks, id, true) == fd)
          && (other != id ==> (IsOnline(w'.server.ks, other, true) <==> IsOnline(w.server.ks, other, true)))
  {
    hide Consistent, Exec, AdmissibleRun, Handle, Matched, IsOnline, TalkerFd, GetName;
    RunStaysConsistent(w0, run);
    var w := Exec(w0, run);
    match ev
    case LoggedOut(m, e) => LogoutTakesEffect(w, m, e, other);
    case Received(m, fd, e) =>
      if m.msgType == MSG_LOGIN && Matched(w.server, m, e).Some? { LoginTakesEffect(w, m, fd, e, other); }
  }

  lemma LogoutTakesEffect(w: World, m: Msg, e: Env, other: int)
    requires Consistent(w) && Admissible(w, LoggedOut(m, e)) && IsInt32(other)
    ensures var ks := Next(w, LoggedOut(m, e)).server.ks;
      && !IsOnline(ks, m.id, true) && ToString(m.id) !in ks
      && (other != m.id ==> (IsOnline(ks, other, true) <==> IsOnline(w.server.ks, other, true)))
  {
    hide IsOnline;
    RemoveSessionEffect(w.server.ks, m.id);
    var ks := Next(w, LoggedOut(m, e)).server.ks;
    IsOnlineReadsMembers(ks, m.id);
    IsOnlineReadsMembers(ks, other);
    IsOnlineReadsMembers(w.server.ks, other);
    if ToString(other) == ToString(m.id) { ToStringInjective(other, m.id); }
  }

  lemma LoginTakesEffect(w: World, m: Msg, fd: int, e: Env, other: int)
    requires Consistent(w) && Admissible(w, Received(m, fd, e)) && IsInt32(other)
    requires m.msgType == MSG_LOGIN && Matched(w.server, m, e).Some?
    ensures var (w', id) := (Next(w, Received(m, fd, e)), Matched(w.server, m, e).value.userid);
      && IsOnline(w'.server.ks, id, true) && id in w'.online
      && (IsWord(GetName(m)) ==> TalkerFd(w'.server.ks, id, true) == fd)
      && (other != id ==> (IsOnline(w'.server.ks, other, true) <==> IsOnline(w.server.ks, other, true)))
  {
    hide Handle, LoginTask, Matched, IsOnline, TalkerFd, Quotable, AddSession, GetName;
    var id := Matched(w.server, m, e).value.userid;
    HandlesLogin(w.server, m, fd, e);
    LoginAddsSessionOnlyOnMatch(w.server, m, fd, e);
    MatchedNameIsShort(w, m, e);
    AddSessionEffect(w.server.ks, id, GetName(m), fd);
    SessionRoundTrip(w.server.ks, id, GetName(m), fd);
    var ks := Next(w, Received(m, fd, e)).server.ks;
    IsOnlineReadsMembers(ks, other);
    IsOnlineReadsMembers(w.server.ks, other);
    if ToString(other) == ToString(id) { ToStringInjective(other, id); }
  }

  /** A fresh keyspace is consistent with any sound table; one left behind by an earlier run of
      the server stays consistent, so that a restart changes nothing. */
  lemma FreshKeyspaceIsConsistent(w: World)
    requires UsersInv(w.server.users) && SmallIds(w.server) && w.server.ks == map[] && w.online == map[]
    ensures Consistent(w)
  {
    assert PrintedIds(w.online) == {};
  }

  /** The texts of a registration close. */
  predicate TextsClose(ev: Event) {
    ev.Received? && ev.m.msgType == MSG_REG ==> Closes(GetName(ev.m)) && Closes(GetPasswd(ev.m))
  }

  lemma StepKeepsUsers(w: World, ev: Event)
    requires UsersInv(w.server.users) && TextsClose(ev)
    ensures UsersInv(Next(w, ev).server.users)
  {
    hide UsersInv, Handle, RegTask, LoginTask, AddSession, RemoveSession, Closes, RegInserts, Matched;
    match ev
    case LoggedOut(m, e) =>
    case Received(m, fd, e) =>
      if m.msgType == MSG_REG {
        HandlesRegistration(w.server, m, fd, e);
        RegistrationIsSound(w.server, m, fd, e);
      } else if m.msgType == MSG_LOGIN {
        HandlesLogin(w.server, m, fd, e);
        LoginAddsSessionOnlyOnMatch(w.server, m, fd, e);
      } else {
        OthersOnlyAnswer(w.server, m, fd, e);
      }
  }

  /** Over every serialised run whose registrations close, crashes and failures included,
      usernames stay unique and ids stay distinct. */
  lemma {:induction false} UsernamesStayUnique(w: World, run: seq<Event>)
    requires UsersInv(w.server.users) && forall ev :: ev in run ==> TextsClose(ev)
    ensures UsersInv(Exec(w, run).server.users)
    decreases |run|
  {
    hide UsersInv, Next, TextsClose;
    if run != [] {
      StepKeepsUsers(w, run[0]);
      UsernamesStayUnique(Next(w, run[0]), run[1..]);
    }
  }

  lemma AskReachesLatestLogin(w: World, m: Msg, fd: int, e: Env)
    requires Consistent(w) && e.queryOk && e.up1 && e.up2
    requires Quotable(GetName(m)) && AskFits(IdOf, GetName(m))
    requires FindUser(w.server.users, GetName(m)).Some?
    ensures var row := FindUser(w.server.users, GetName(m)).value;
      && (row.userid !in w.online ==> AskTask(w.server, m, fd, e) == Served(w.server))
      && (row.userid in w.online && IsWord(GetName(m)) ==>
            AskTask(w.server, m, fd, e)
              == Served(Push(w.server, m.(recverId := row.userid, fd := w.online[row.userid].fd))))
  {
    hide IsOnline, TalkerFd, TalkerField, Asked, Quotable, AskFits;
    AskedReading(IdOf, GetName(m));
    var row := FindUser(w.server.users, GetName(m)).value;
    FindUserFinds(w.server.users, GetName(m));
    IsOnlineReadsMembers(w.server.ks, row.userid);
    PrintedReflects(w.online, row.userid);
    if row.userid in w.online {
      var login := w.online[row.userid];
      assert SessionOk(w.server, row.userid, login);
      SameIdSameName(w.server.users, row, login.name);
      if IsWord(login.name) {
        GettersReadHash(w.server.ks, row.userid, InRedis(login.name), login.fd);
      }
    }
  }

  /** A friend request reaches the descriptor of the latest login of the named user, and is
      dropped when that user is offline. */
  lemma FriendRequestReachesLatestLogin(w0: World, run: seq<Event>, m: Msg, fd: int, e: Env)
    requires Consistent(w0) && AdmissibleRun(w0, run)
    requires m.msgType == MSG_ASK_FOR_FRIEND && e.queryOk && e.up1 && e.up2
    requires Quotable(GetName(m)) && AskFits(IdOf, GetName(m))
    requires FindUser(Exec(w0, run).server.users, GetName(m)).Some?
    ensures var w := Exec(w0, run);
      var row := FindUser(w.server.users, GetName(m)).value;
      var o := Handle(w.server, m, fd, e);
      && (row.userid !in w.online ==> o == Served(w.server))
      && (row.userid in w.online && IsWord(GetName(m)) ==>
            o == Served(Push(w.server, m.(recverId := row.userid, fd := w.online[row.userid].fd))))
  {
    hide AskTask, Handle, Consistent;
    RunStaysConsistent(w0, run);
    AskReachesLatestLogin(Exec(w0, run), m, fd, e);
    HandlesAsk(Exec(w0, run).server, m, fd, e);
  }

  /** After any run, a friend request for a quotable name that fits its query and has no row is sent
      back to the requester's descriptor as not found, once, and nothing else happens. */
  lemma UnknownFriendsAreNotFound(w0: World, run: seq<Event>, m: Msg, fd: int, e: Env)
    requires m.msgType == MSG_ASK_FOR_FRIEND && e.queryOk
    requires Quotable(GetName(m)) && AskFits(IdOf, GetName(m))
    requires FindUser(Exec(w0, run).server.users, GetName(m)).None?
    ensures var w := Exec(w0, run);
      Handle(w.server, m, fd, e) == Served(Push(w.server, m.(msgType := MSG_ASK_FOR_FRIEND_NOT_FOUND, fd := fd)))
  {
    hide Exec, Asked, Quotable, AskFits, GetName, FindUser, Handle;
    AskedReading(IdOf, GetName(m));
    UnknownFriendIsAnswered(Exec(w0, run).server, m, fd, e);
  }

  // ----- talk and accepted requests

  lemma OnlineIsRegistry(w: World, id: int)
    requires Consistent(w) && IsInt32(id)
    ensures IsOnline(w.server.ks, id, true) <==> id in w.online
  {
    IsOnlineReadsMembers(w.server.ks, id);
    PrintedReflects(w.online, id);
  }

  /** The name of the session, if there is one, can be stored. */
  predicate OneWord(w: World, id: int) {
    id in w.online ==> IsWord(w.online[id].name)
  }

  /** What the getters answer of an id, online or not. */
  lemma GettersReadRegistry(w: World, id: int)
    requires Consistent(w) && IsInt32(id) && OneWord(w, id)
    ensures TalkerField(w.server.ks, id, "name", true)
         == Some(if id in w.online then InRedis(w.online[id].name) else "")
    ensures TalkerFd(w.server.ks, id, true) == if id in w.online then w.online[id].fd else 0
  {
    if id in w.online {
      assert SessionOk(w.server, id, w.online[id]);
      GettersReadHash(w.server.ks, id, InRedis(w.online[id].name), w.online[id].fd);
    } else {
      PrintedReflects(w.online, id);
      IdIsNoSessionKey(id);
      GettersWithoutHash(w.server.ks, id);
    }
  }

  lemma HandlesTalkAndAccept(s: Server, m: Msg, fd: int, e: Env)
    ensures m.msgType == MSG_TALK ==> Handle(s, m, fd, e) == TalkTask(s, m, e)
    ensures m.msgType == MSG_ASK_FOR_FRIEND_ACCEPT ==> Handle(s, m, fd, e) == AcceptTask(s, m, e)
  {
    hide NoticeText, LoginTask, RegTask, AskTask, AcceptTask, TalkTask;
    Dispatch(m.msgType);
    assert TABLE[1] == (MSG_TALK, UserSend);
    assert TABLE[10] == (MSG_ASK_FOR_FRIEND_ACCEPT, AskForFriendAccept);
  }

  /** Over every serialised run, talk is passed on unchanged exactly when the receiver is
      online, and dropped otherwise. */
  lemma TalkPassesWhenOnline(w0: World, run: seq<Event>, m: Msg, fd: int, e: Env)
    requires Consistent(w0) && AdmissibleRun(w0, run)
    requires m.msgType == MSG_TALK && e.up1 && IsInt32(m.recverId)
    ensures var w := Exec(w0, run);
      Handle(w.server, m, fd, e) == Served(if m.recverId in w.online then Push(w.server, m) else w.server)
  {
    hide Handle, IsOnline, Consistent;
    RunStaysConsistent(w0, run);
    OnlineIsRegistry(Exec(w0, run), m.recverId);
    HandlesTalkAndAccept(Exec(w0, run).server, m, fd, e);
  }

  /** An accepted request goes to the descriptor of the receiver's latest login, with the
      accepter's name, which reads as empty when the accepter is offline. */
  lemma AcceptReachesLatestLogin(w0: World, run: seq<Event>, m: Msg, fd: int, e: Env)
    requires Consistent(w0) && AdmissibleRun(w0, run)
    requires m.msgType == MSG_ASK_FOR_FRIEND_ACCEPT && e.up1 && e.up2 && e.up3
    requires IsInt32(m.recverId) && IsInt32(m.id)
    requires OneWord(Exec(w0, run), m.recverId) && OneWord(Exec(w0, run), m.id)
    ensures var w := Exec(w0, run);
      var name := if m.id in w.online then InRedis(w.online[m.id].name) else "";
      Handle(w.server, m, fd, e)
        == Served(if m.recverId in w.online && |name| < NAME_MAX_LEN
                  then Push(w.server, WithMsg(m.(fd := w.online[m.recverId].fd), name)) else w.server)
  {
    hide Handle, IsOnline, TalkerFd, TalkerField, Consistent, WithMsg;
    RunStaysConsistent(w0, run);
    var w := Exec(w0, run);
    OnlineIsRegistry(w, m.recverId);
    GettersReadRegistry(w, m.recverId);
    GettersReadRegistry(w, m.id);
    HandlesTalkAndAccept(w.server, m, fd, e);
  }

  /** What the receiver of an acceptance reads is the accepter's name as Redis holds it: the very
      name of the accepter's login if that has no percent sign. */
  lemma AcceptanceReadsName(w0: World, run: seq<Event>, m: Msg, fd: int, e: Env)
    requires Consistent(w0) && AdmissibleRun(w0, run)
    requires m.msgType == MSG_ASK_FOR_FRIEND_ACCEPT && e.up1 && e.up2 && e.up3
    requires IsInt32(m.recverId) && IsInt32(m.id)
    requires OneWord(Exec(w0, run), m.recverId) && OneWord(Exec(w0, run), m.id)
    requires m.recverId in Exec(w0, run).online && m.id in Exec(w0, run).online
    requires |InRedis(Exec(w0, run).online[m.id].name)| < NAME_MAX_LEN
    ensures var w := Exec(w0, run);
      var name := w.online[m.id].name;
      var o := Handle(w.server, m, fd, e);
      && o.Served? && |o.server.out| == |w.server.out| + 1
      && LastOut(o.server).fd == w.online[m.recverId].fd
      && GetName(LastOut(o.server)) == CStr(InRedis(name))
      && ('%' !in name && '\0' !in name ==> GetName(LastOut(o.server)) == name)
  {
    hide Handle, Consistent, WithMsg, GetName, CStr, OneWord, AdmissibleRun, Exec, InRedis;
    AcceptReachesLatestLogin(w0, run, m, fd, e);
    var w := Exec(w0, run);
    var name := InRedis(w.online[m.id].name);
    var obj := m.(fd := w.online[m.recverId].fd);
    InRedisAsGiven(w.online[m.id].name);
    ShortText(name);
    MessageIsHeld(obj, name);
    SettersKeepFields(obj, Message(name));
    PlainText(w.online[m.id].name);
  }

  lemma ShortText(s: string)
    ensures |CStr(s)| <= |s|
  {
  }

  lemma PlainText(s: string)
    ensures '\0' !in s ==> CStr(s) == s
  {
  }

  /** Over every serialised run whose registrations close, a registration that passes the length
      guard and is served adds exactly one reply, to its requester; an acceptance carries the id
      of the row it added, and that row is of the typed name and password exactly when these are
      quotable. */
  lemma RegistrationsAreAnswered(w0: World, run: seq<Event>, m: Msg, fd: int, e: Env)
    requires UsersInv(w0.server.users) && forall ev :: ev in run ==> TextsClose(ev)
    requires m.msgType == MSG_REG && m.len <= 64 && TextsClose(Received(m, fd, e))
    requires Handle(Exec(w0, run).server, m, fd, e).Served?
    ensures var s := Exec(w0, run).server;
      var t := Handle(s, m, fd, e).server;
      && Answered(s, t, fd) && UsersInv(t.users)
      && (t.users == s.users || Registered(s, t, InDatabase(GetName(m)), fd, InDatabase(GetPasswd(m))))
      && (LastOut(t).msgType == MSG_REG_ACCEPT ==>
            && Registered(s, t, InDatabase(GetName(m)), fd, InDatabase(GetPasswd(m)))
            && LastOut(t).id == LastRow(t).userid
            && (LastRow(t).username == GetName(m) <==> Quotable(GetName(m)))
            && (LastRow(t).password == GetPasswd(m) <==> Quotable(GetPasswd(m))))
  {
    hide Handle, RegTask, UsersInv, Answered, Registered, LastOut, LastRow, RegInserts;
    hide Closes, InDatabase, Quotable, GetName, GetPasswd;
    UsernamesStayUnique(w0, run);
    var s := Exec(w0, run).server;
    HandlesRegistration(s, m, fd, e);
    RegistrationIsSound(s, m, fd, e);
    if RegInserts(s, m, fd, e) {
      RegisteredAsTyped(s, m, fd, e);
    }
  }
}
