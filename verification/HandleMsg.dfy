/** The server's handlers as a state machine over the user table, the Redis keyspace and the
    outgoing buffer.  Each handler body is one serialised task; the environment decides which
    statements and Redis calls succeed. */
module HandleMsg {
  import opened Wrappers
  import opened Counting
  import opened Text
  import opened Sql
  import opened RedisPool
  import opened SeqAbleObj
  import opened ComManger

  // ----- the user table

  datatype Row = Row(userid: int, username: string, fd: int, password: string)

  /** The row that a SELECT by name finds; names are compared byte for byte. */
  function FindUser(users: seq<Row>, name: string): Option<Row> {
    if users == [] then None
    else if users[0].username == name then Some(users[0])
    else FindUser(users[1..], name)
  }

  /** `select max(userid)`; 0 stands for the NULL of an empty table. */
  function MaxId(users: seq<Row>): int {
    if users == [] then 0
    else
      var m := MaxId(users[..|users| - 1]);
      if m < users[|users| - 1].userid then users[|users| - 1].userid else m
  }

  /** `insert`: the auto-increment id is above every id in use; it may skip some. */
  function Insert(users: seq<Row>, name: string, fd: int, password: string, gap: nat): seq<Row> {
    users + [Row(MaxId(users) + 1 + gap, name, fd, password)]
  }

  /** The result of a rendered SELECT by name: None without a result set, and otherwise the row
      that it has, if any.  A statement that is not the intended one finds what the environment
      says. */
  function QueryUser(users: seq<Row>, q: Query, name: string, e: Env): Option<Option<Row>> {
    match Asked(q, name)
    case Broken => None
    case Read(v) => if e.queryOk then Some(FindUser(users, v)) else None
    case Stray => if e.queryOk then Some(e.strayRow) else None
  }

  /** The table after a rendered INSERT; None if it did not take effect.  A statement that is not
      the intended one may leave any table. */
  function InsertUser(users: seq<Row>, name: string, fd: int, password: string, e: Env): Option<seq<Row>> {
    if !e.insertOk then None
    else
      match Stored(name, fd, password)
      case Broken => None
      case Read(row) => Some(Insert(users, row.username, Atoi(row.fd), row.password, e.gap))
      case Stray => Some(e.strayTable)
  }

  // ----- the tasks

  datatype Server = Server(users: seq<Row>, ks: Keyspace, out: seq<Msg>)

  datatype Env = Env(
    queryOk: bool,   // the first SELECT returns a result set
    insertOk: bool,  // the INSERT takes effect
    gap: nat,
    maxOk: bool,     // the SELECT of the maximum returns a result set
    maxRow: bool,    // and that has a row
    idOk: bool,      // getInt("userid") does not throw
    up1: bool, up2: bool, up3: bool,  // the Redis calls of the task, in order
    strayRow: Option<Row>,    // what a SELECT other than the intended one finds
    strayTable: seq<Row>)     // what an INSERT other than the intended one leaves

  /** A task that reads a result set it did not get dereferences null. */
  datatype Outcome = Served(server: Server) | Crashed(server: Server)

  /** The texts that the handlers write into a refusal or an acceptance. */
  datatype Notice =
    | NameTaken | InsertFailed | IdNotRead | Accepted
    | TooLong | NameNotFound | WrongPassword | IdNotFound

  function NoticeText(n: Notice): string {
    match n
    case NameTaken => "regin err! name reg exists already!"
    case InsertFailed => "regin err! insert error!\n"
    case IdNotRead => "regin err no found current id! \n"
    case Accepted => "regin accepted! \n"
    case TooLong => "Login err! msg len too long! \n"
    case NameNotFound => "Login err! not found name\n"
    case WrongPassword => "Login err! password not equal!\n"
    case IdNotFound => "Login err! id not found!\n"
  }

  function Push(s: Server, m: Msg): Server { s.(out := s.out + [m]) }

  function Answer(s: Server, m: Msg, msgType: int, n: Notice): Server {
    Push(s, WithMsg(m.(msgType := msgType), NoticeText(n)))
  }

  function RegTask(s: Server, m: Msg, fd: int, e: Env): Outcome {
    if m.len > NAME_MAX_LEN + PASSWORD_MAX_LEN then Served(s)
    else
      var obj := m.(fd := fd);
      match QueryUser(s.users, PasswordOf, GetName(obj), e)
      case None => Crashed(s)
      case Some(Some(_)) => Served(Answer(s, obj, MSG_REG_REFUSE, NameTaken))
      case Some(None) =>
        match InsertUser(s.users, GetName(obj), fd, GetPasswd(obj), e)
        case None => Served(Answer(s, obj, MSG_REG_REFUSE, InsertFailed))
        case Some(users) =>
          var t := s.(users := users);
          if !e.maxOk then Crashed(t)
          else if !e.maxRow then Served(Answer(t, obj, MSG_REG_REFUSE, IdNotRead))
          else Served(Answer(t, obj.(id := MaxId(t.users)), MSG_REG_ACCEPT, Accepted))
  }

  function LoginTask(s: Server, m: Msg, fd: int, e: Env): Outcome {
    if m.len > MAX_TRANS_MSG_LEN then
      Served(Answer(s, m, MSG_LOGIN_REFUSE, TooLong))
    else
      match QueryUser(s.users, PasswordAndIdOf, GetName(m), e)
      case None => Served(Answer(s, m, MSG_LOGIN_REFUSE, NameNotFound))
      case Some(None) => Served(Push(s, m.(msgType := MSG_LOGIN_ACCEPT)))
      case Some(Some(row)) =>
        if GetPasswd(m) != CStr(row.password) then
          Served(Answer(s, m, MSG_LOGIN_REFUSE, WrongPassword))
        else if !e.idOk then
          Served(Answer(s, m, MSG_LOGIN_REFUSE, IdNotFound))
        else
          var t := s.(ks := AddSession(s.ks, row.userid, GetName(m), fd, e.up1, e.up2).0);
          Served(Push(t, m.(id := row.userid, fd := fd, msgType := MSG_LOGIN_ACCEPT)))
  }

  function TalkTask(s: Server, m: Msg, e: Env): Outcome {
    Served(if IsOnline(s.ks, m.recverId, e.up1) then Push(s, m) else s)
  }

  function AskTask(s: Server, m: Msg, fd: int, e: Env): Outcome {
    match QueryUser(s.users, IdOf, GetName(m), e)
    case None => Crashed(s)
    case Some(None) => Served(Push(s, m.(msgType := MSG_ASK_FOR_FRIEND_NOT_FOUND, fd := fd)))
    case Some(Some(row)) =>
      Served(if IsOnline(s.ks, row.userid, e.up1)
             then Push(s, m.(recverId := row.userid, fd := TalkerFd(s.ks, row.userid, e.up2)))
             else s)
  }

  function AcceptTask(s: Server, m: Msg, e: Env): Outcome {
    if !IsOnline(s.ks, m.recverId, e.up1) then Served(s)
    else
      var obj := m.(fd := TalkerFd(s.ks, m.recverId, e.up2));
      match TalkerField(s.ks, m.id, "name", e.up3)
      case None => Served(Push(s, obj))
      case Some(name) => Served(if |name| >= NAME_MAX_LEN then s else Push(s, WithMsg(obj, name)))
  }

  /** The body of `handleUserLogOutMsg`, which no entry of the dispatch table reaches. */
  function LogOutTask(s: Server, m: Msg, e: Env): Server {
    s.(ks := RemoveSession(s.ks, m.id, e.up1, e.up2).0)
  }

  // ----- dispatch

  datatype Handler =
    | Cmd | UserSend | UserReg | UserRegRefused | UserRegAccepted
    | UserLog | UserLogRefused | UserLogAccepted
    | AskForFriend | AskForFriendNotFound | AskForFriendAccept

  const TABLE: seq<(int, Handler)> := [
    (MSG_CMD, Cmd),
    (MSG_TALK, UserSend),
    (MSG_REG, UserReg),
    (MSG_REG_REFUSE, UserRegRefused),
    (MSG_REG_ACCEPT, UserRegAccepted),
    (MSG_LOGIN, UserLog),
    (MSG_LOGIN_REFUSE, UserLogRefused),
    (MSG_LOGIN_ACCEPT, UserLogAccepted),
    (MSG_ASK_FOR_FRIEND, AskForFriend),
    (MSG_ASK_FOR_FRIEND_NOT_FOUND, AskForFriendNotFound),
    (MSG_ASK_FOR_FRIEND_ACCEPT, AskForFriendAccept)
  ]

  function LookUp(table: seq<(int, Handler)>, msgType: int): (r: Option<Handler>)
    ensures r.Some? ==> exists i :: 0 <= i < |table| && table[i] == (msgType, r.value)
    ensures r.None? ==> forall i :: 0 <= i < |table| ==> table[i].0 != msgType
  {
    if table == [] then None
    else if table[0].0 == msgType then Some(table[0].1)
    else LookUp(table[1..], msgType)
  }

  /** What the handler does on the server; the others only have a client side. */
  function RunHandler(h: Handler, s: Server, m: Msg, fd: int, e: Env): Outcome {
    match h
    case UserSend => TalkTask(s, m, e)
    case UserReg => RegTask(s, m, fd, e)
    case UserLog => LoginTask(s, m, fd, e)
    case AskForFriend => AskTask(s, m, fd, e)
    case AskForFriendAccept => AcceptTask(s, m, e)
    case _ => Served(s)
  }

  function Handle(s: Server, m: Msg, fd: int, e: Env): Outcome {
    match LookUp(TABLE, m.msgType)
    case Some(h) => RunHandler(h, s, m, fd, e)
    case None => Served(s)
  }

  ghost predicate TypesDiffer(table: seq<(int, Handler)>) {
    forall i, j :: 0 <= i < j < |table| ==> table[i].0 != table[j].0
  }

  lemma {:induction false} LookUpIsMembership(table: seq<(int, Handler)>, msgType: int, h: Handler)
    requires TypesDiffer(table)
    ensures LookUp(table, msgType) == Some(h) <==> (msgType, h) in table
  {
    if table != [] {
      LookUpIsMembership(table[1..], msgType, h);
      assert table == [table[0]] + table[1..];
      assert forall i :: 0 <= i < |table[1..]| ==> table[1..][i].0 != table[0].0;
    }
  }

  /** The table dispatches each listed type to its handler, and no other type at all. */
  lemma Dispatch(msgType: int)
    ensures forall h :: LookUp(TABLE, msgType) == Some(h) <==> (msgType, h) in TABLE
  {
    assert TypesDiffer(TABLE);
    forall h ensures LookUp(TABLE, msgType) == Some(h) <==> (msgType, h) in TABLE {
      LookUpIsMembership(TABLE, msgType, h);
    }
  }

  lemma ReachesHandler(msgType: int)
    ensures LookUp(TABLE, msgType) == Some(UserReg) <==> msgType == MSG_REG
    ensures LookUp(TABLE, msgType) == Some(AskForFriend) <==> msgType == MSG_ASK_FOR_FRIEND
    ensures LookUp(TABLE, msgType) == Some(UserLog) <==> msgType == MSG_LOGIN
    ensures LookUp(TABLE, msgType) == Some(UserSend) <==> msgType == MSG_TALK
    ensures LookUp(TABLE, msgType) == Some(AskForFriendAccept) <==> msgType == MSG_ASK_FOR_FRIEND_ACCEPT
  {
    Dispatch(msgType);
    assert TABLE[1] == (MSG_TALK, UserSend) && TABLE[2] == (MSG_REG, UserReg) && TABLE[5] == (MSG_LOGIN, UserLog);
    assert TABLE[8] == (MSG_ASK_FOR_FRIEND, AskForFriend);
    assert TABLE[10] == (MSG_ASK_FOR_FRIEND_ACCEPT, AskForFriendAccept);
  }

  /** Neither a logout nor a sentinel from the wire is ever handled. */
  lemma NotDispatched(msgType: int)
    requires msgType in {MSG_LOGOUT, MSG_BUTTON}
    ensures LookUp(TABLE, msgType) == None
  {
  }

  // ----- registration

  /** No two rows have the same name. */
  ghost predicate UniqueNames(users: seq<Row>) {
    forall i, j :: 0 <= i < j < |users| ==> users[i].username != users[j].username
  }

  /** Names and ids are unique, ids grow and are positive. */
  ghost predicate UsersInv(users: seq<Row>) {
    && UniqueNames(users)
    && (forall i, j :: 0 <= i < j < |users| ==> users[i].userid < users[j].userid)
    && (forall i :: 0 <= i < |users| ==> 0 < users[i].userid)
  }

  lemma {:induction false} FindUserFinds(users: seq<Row>, name: string)
    ensures FindUser(users, name).None? <==> forall i :: 0 <= i < |users| ==> users[i].username != name
    ensures FindUser(users, name).Some? ==>
      FindUser(users, name).value in users && FindUser(users, name).value.username == name
  {
    if users != [] {
      FindUserFinds(users[1..], name);
    }
  }

  lemma {:induction false} FindUserStable(users: seq<Row>, name: string, row: Row)
    requires FindUser(users, name).Some?
    ensures FindUser(users + [row], name) == FindUser(users, name)
  {
    if users[0].username != name {
      assert (users + [row])[1..] == users[1..] + [row];
      FindUserStable(users[1..], name, row);
    }
  }

  ghost predicate HasRow(users: seq<Row>, id: int, name: string) {
    FindUser(users, name).Some? && FindUser(users, name).value.userid == id
  }

  /** An id belongs to one username. */
  lemma SameIdSameName(users: seq<Row>, row: Row, name: string)
    requires UsersInv(users) && row in users && HasRow(users, row.userid, name)
    ensures name == row.username
  {
    FindUserFinds(users, name);
    var i :| 0 <= i < |users| && users[i] == row;
    var j :| 0 <= j < |users| && users[j] == FindUser(users, name).value;
    assert i == j;
  }

  lemma {:induction false} MaxIdBounds(users: seq<Row>)
    ensures 0 <= MaxId(users) && forall i :: 0 <= i < |users| ==> users[i].userid <= MaxId(users)
  {
    if users != [] {
      MaxIdBounds(users[..|users| - 1]);
    }
  }

  lemma InsertKeepsUsers(users: seq<Row>, name: string, fd: int, password: string, gap: nat)
    requires UsersInv(users)
    ensures UsersInv(Insert(users, name, fd, password, gap)) <==> FindUser(users, name).None?
    ensures MaxId(Insert(users, name, fd, password, gap)) == MaxId(users) + 1 + gap
  {
    MaxIdBounds(users);
    FindUserFinds(users, name);
    var users' := Insert(users, name, fd, password, gap);
    assert users'[..|users|] == users;
    if !FindUser(users, name).None? {
      var i :| 0 <= i < |users| && users[i].username == name;
      assert users'[i].username == users'[|users|].username;
    }
  }

  function LastOut(s: Server): Msg { if s.out == [] then ZERO_MSG else s.out[|s.out| - 1] }

  function LastRow(s: Server): Row {
    if s.users == [] then Row(0, "", 0, "") else s.users[|s.users| - 1]
  }

  /** One reply, to that descriptor, accepting or refusing. */
  predicate Answered(before: Server, after: Server, fd: int) {
    && |after.out| == |before.out| + 1 && after.out[..|before.out|] == before.out
    && LastOut(after).fd == fd
    && LastOut(after).msgType in {MSG_REG_ACCEPT, MSG_REG_REFUSE}
  }

  /** One new row with a fresh name and a fresh id. */
  ghost predicate Registered(before: Server, after: Server, name: string, fd: int, password: string) {
    && |after.users| == |before.users| + 1 && after.users[..|before.users|] == before.users
    && LastRow(after).username == name && LastRow(after).fd == fd && LastRow(after).password == password
    && FindUser(before.users, name).None?
    && LastRow(after).userid > MaxId(before.users)
  }

  /** The registration reaches its INSERT and that takes effect. */
  predicate RegInserts(s: Server, m: Msg, fd: int, e: Env) {
    && m.len <= 64
    && QueryUser(s.users, PasswordOf, GetName(m), e) == Some(None)
    && InsertUser(s.users, GetName(m), fd, GetPasswd(m), e).Some?
  }

  lemma AnswerEffect(s: Server, m: Msg, msgType: int, n: Notice)
    ensures var t := Answer(s, m, msgType, n);
      && t.users == s.users && t.ks == s.ks
      && |t.out| == |s.out| + 1 && t.out[..|s.out|] == s.out
      && LastOut(t).msgType == msgType && LastOut(t).fd == m.fd && LastOut(t).id == m.id
  {
  }

  lemma RegistrationThatRefuses(s: Server, m: Msg, fd: int, e: Env)
    requires !RegInserts(s, m, fd, e)
    ensures var o := RegTask(s, m, fd, e);
      && o.server.users == s.users && o.server.ks == s.ks
      && (o.Served? && m.len <= 64 ==>
            Answered(s, o.server, fd) && LastOut(o.server).msgType == MSG_REG_REFUSE)
      && (o.Crashed? || m.len > 64 ==> o.server.out == s.out)
  {
    hide Answer, NoticeText, QueryUser, InsertUser;
    AnswerEffect(s, m.(fd := fd), MSG_REG_REFUSE, NameTaken);
    AnswerEffect(s, m.(fd := fd), MSG_REG_REFUSE, InsertFailed);
  }

  /** Whatever was inserted, a registration that inserts and is served answers once. */
  lemma RegistrationThatInserts(s: Server, m: Msg, fd: int, e: Env)
    requires RegInserts(s, m, fd, e)
    ensures var o := RegTask(s, m, fd, e);
      && InsertUser(s.users, GetName(m), fd, GetPasswd(m), e) == Some(o.server.users) && o.server.ks == s.ks
      && (o.Crashed? ==> o.server.out == s.out)
      && (o.Served? ==> Answered(s, o.server, fd))
      && (o.Served? && LastOut(o.server).msgType == MSG_REG_ACCEPT ==>
            LastOut(o.server).id == MaxId(o.server.users))
      && (o.Served? && e.maxRow ==> LastOut(o.server).msgType == MSG_REG_ACCEPT)
  {
    hide Answer, NoticeText, QueryUser, InsertUser, MaxId;
    var obj := m.(fd := fd);
    var t := s.(users := InsertUser(s.users, GetName(m), fd, GetPasswd(m), e).value);
    AnswerEffect(t, obj, MSG_REG_REFUSE, IdNotRead);
    AnswerEffect(t, obj.(id := MaxId(t.users)), MSG_REG_ACCEPT, Accepted);
  }

  /** An INSERT that fits lets the SELECT before it fit too. */
  lemma StoreFitsAskFits(name: string, fd: int, password: string)
    requires StoreFits(name, fd, password)
    ensures AskFits(PasswordOf, name)
  {
    hide InsertPrefix;
    StoreFitsExactly(name, fd, password);
  }

  /** With texts that close, what is inserted is one fresh row: the one the database reads. */
  lemma InsertIsFresh(s: Server, m: Msg, fd: int, e: Env)
    requires UsersInv(s.users) && RegInserts(s, m, fd, e) && Closes(GetName(m)) && Closes(GetPasswd(m))
    ensures var users := InsertUser(s.users, GetName(m), fd, GetPasswd(m), e).value;
      && users == Insert(s.users, InDatabase(GetName(m)), fd, InDatabase(GetPasswd(m)), e.gap)
      && UsersInv(users) && FindUser(s.users, InDatabase(GetName(m))).None?
      && MaxId(users) == MaxId(s.users) + 1 + e.gap
      && StoreFits(GetName(m), fd, GetPasswd(m))
  {
    hide Asked, Stored, Closes, InDatabase, StoreFits, AskFits, GetName, GetPasswd, FindUser, UsersInv, MaxId;
    var (name, password) := (GetName(m), GetPasswd(m));
    StoredReading(name, fd, password);
    AtoiToString(fd);
    StoreFitsAskFits(name, fd, password);
    AskedReading(PasswordOf, name);
    InsertKeepsUsers(s.users, InDatabase(name), fd, InDatabase(password), e.gap);
  }

  /** Registration, as one task, of a name and a password that close: it keeps names unique; past
      the length guard it answers exactly once, to the requester's descriptor; the only change it
      makes is one fresh row of what the database reads; and it accepts only with the id of that
      row. */
  lemma RegistrationIsSound(s: Server, m: Msg, fd: int, e: Env)
    requires UsersInv(s.users) && Closes(GetName(m)) && Closes(GetPasswd(m))
    ensures var o := RegTask(s, m, fd, e);
      && UsersInv(o.server.users) && o.server.ks == s.ks
      && (o.Served? && m.len <= 64 ==> Answered(s, o.server, fd))
      && (o.Crashed? || m.len > 64 ==> o.server.out == s.out)
      && (if RegInserts(s, m, fd, e)
          then Registered(s, o.server, InDatabase(GetName(m)), fd, InDatabase(GetPasswd(m)))
          else o.server.users == s.users)
      && (Answered(s, o.server, fd) && LastOut(o.server).msgType == MSG_REG_ACCEPT ==>
            RegInserts(s, m, fd, e) && LastOut(o.server).id == LastRow(o.server).userid)
      && (o.Served? && m.len <= 64 && e.maxRow && LastOut(o.server).msgType == MSG_REG_REFUSE ==>
            o.server.users == s.users)
  {
    hide RegTask, Closes, InDatabase, GetName, GetPasswd, FindUser, UsersInv, MaxId, StoreFits, QueryUser, InsertUser;
    if RegInserts(s, m, fd, e) {
      RegistrationThatInserts(s, m, fd, e);
      InsertIsFresh(s, m, fd, e);
    } else {
      RegistrationThatRefuses(s, m, fd, e);
    }
  }

  /** In this server and environment, in which an INSERT of whatever shape only adds rows, the
      registration keeps names unique. */
  ghost predicate KeepsNames(s: Server, m: Msg, fd: int, e: Env) {
    UniqueNames(s.users) && s.users <= e.strayTable ==> UniqueNames(RegTask(s, m, fd, e).server.users)
  }

  /** What the database reads in the two texts: one of them is no statement, or the INSERT names
      whom the SELECT asked for. */
  predicate TextsAgree(m: Msg, fd: int) {
    var asked := Asked(PasswordOf, GetName(m));
    var stored := Stored(GetName(m), fd, GetPasswd(m));
    asked.Broken? || stored.Broken? || (asked.Read? && stored.Read? && asked.value == stored.value.username)
  }

  /** A registration keeps names unique, on every table and in every environment, exactly when its
      two texts agree. */
  lemma NamesStayUniqueExactly(m: Msg, fd: int)
    requires m.len <= 64
    ensures (forall s, e :: KeepsNames(s, m, fd, e)) <==> TextsAgree(m, fd)
  {
    hide KeepsNames, TextsAgree, UniqueNames;
    if TextsAgree(m, fd) {
      forall s, e ensures KeepsNames(s, m, fd, e) {
        AgreeingTextsKeepNames(s, m, fd, e);
      }
    } else {
      var s, e := OtherTextsRepeatAName(m, fd);
    }
  }

  lemma InsertKeepsNames(users: seq<Row>, name: string, fd: int, password: string, gap: nat)
    requires UniqueNames(users)
    ensures UniqueNames(Insert(users, name, fd, password, gap)) <==> FindUser(users, name).None?
  {
    hide MaxId;
    FindUserFinds(users, name);
    var users' := Insert(users, name, fd, password, gap);
    assert users'[..|users|] == users;
    if FindUser(users, name).Some? {
      var i :| 0 <= i < |users| && users[i].username == name;
      assert users'[i].username == users'[|users|].username;
    }
  }

  lemma AgreeingTextsKeepNames(s: Server, m: Msg, fd: int, e: Env)
    requires TextsAgree(m, fd)
    ensures KeepsNames(s, m, fd, e)
  {
    hide Asked, Stored, GetName, GetPasswd, FindUser, MaxId, UniqueNames, RegTask, Insert;
    if UniqueNames(s.users) && RegInserts(s, m, fd, e) {
      RegistrationThatInserts(s, m, fd, e);
      var row := Stored(GetName(m), fd, GetPasswd(m)).value;
      InsertKeepsNames(s.users, row.username, Atoi(row.fd), row.password, e.gap);
    } else if !RegInserts(s, m, fd, e) {
      RegistrationThatRefuses(s, m, fd, e);
    }
  }

  /** Texts that do not agree can repeat a name: one that is there already, or two new rows. */
  lemma OtherTextsRepeatAName(m: Msg, fd: int) returns (s: Server, e: Env)
    requires m.len <= 64 && !TextsAgree(m, fd)
    ensures !KeepsNames(s, m, fd, e)
  {
    hide Asked, Stored, GetName, GetPasswd, MaxId, RegTask, UniqueNames;
    var stored := Stored(GetName(m), fd, GetPasswd(m));
    var row := Row(1, if stored.Read? then stored.value.username else "", 0, "");
    var users := if stored.Read? then [row] else [];
    s := Server(users, map[], []);
    e := Env(true, true, 0, true, true, true, true, true, true, None, [row, Row(2, row.username, 0, "")]);
    UniqueOrTwice(row);
    FindUserFinds(users, row.username);
    if Asked(PasswordOf, GetName(m)).Read? {
      FindUserFinds(users, Asked(PasswordOf, GetName(m)).value);
    }
    assert RegInserts(s, m, fd, e);
    RegistrationThatInserts(s, m, fd, e);
    if stored.Read? {
      InsertKeepsNames(users, row.username, Atoi(stored.value.fd), stored.value.password, e.gap);
    }
  }

  lemma UniqueOrTwice(row: Row)
    ensures UniqueNames([]) && UniqueNames([row]) && !UniqueNames([row, Row(2, row.username, 0, "")])
  {
    var twice := [row, Row(2, row.username, 0, "")];
    assert twice[0].username == twice[1].username;
  }

  /** For instance: a quotable name with a password that holds a lone quote. */
  lemma LoneQuotePasswordCanRepeatAName(m: Msg, fd: int, a: string, b: string)
    requires m.len <= 64 && Quotable(GetName(m)) && StoreFits(GetName(m), fd, GetPasswd(m))
    requires GetPasswd(m) == a + ("'" + b) && Quotable(a) && b != [] && b[0] != '\''
    ensures Asked(PasswordOf, GetName(m)) == Read(GetName(m))
    ensures Stored(GetName(m), fd, GetPasswd(m)) == Stray
    ensures exists s, e :: !KeepsNames(s, m, fd, e)
  {
    hide Asked, Stored, GetName, GetPasswd, StoreFits, AskFits, Quotable, Closes, KeepsNames;
    QuotableCloses(GetName(m));
    StoreFitsAskFits(GetName(m), fd, GetPasswd(m));
    AskedReading(PasswordOf, GetName(m));
    LoneQuotePassword(GetName(m), fd, a, b);
    var s, e := OtherTextsRepeatAName(m, fd);
  }

  /** The row is that of the typed name exactly when the name is quotable, and likewise the
      password. */
  lemma RegisteredAsTyped(s: Server, m: Msg, fd: int, e: Env)
    requires UsersInv(s.users) && Closes(GetName(m)) && Closes(GetPasswd(m)) && RegInserts(s, m, fd, e)
    ensures var row := LastRow(RegTask(s, m, fd, e).server);
      && (row.username == GetName(m) <==> Quotable(GetName(m)))
      && (row.password == GetPasswd(m) <==> Quotable(GetPasswd(m)))
  {
    hide RegTask, Closes, InDatabase, GetName, GetPasswd, UsersInv, RegInserts, Quotable, LastOut;
    RegistrationIsSound(s, m, fd, e);
    InDatabaseAsTyped(GetName(m));
    InDatabaseAsTyped(GetPasswd(m));
  }

  /** Handlers that need a result set crash without one, on the server's answer to a
      registration, a friend request, or the look-up of the new id. */
  lemma NullIsDereferenced(s: Server, m: Msg, fd: int, e: Env)
    ensures Handle(s, m, fd, e).Crashed? <==>
      || (m.msgType == MSG_REG && m.len <= 64 && QueryUser(s.users, PasswordOf, GetName(m), e).None?)
      || (m.msgType == MSG_REG && RegInserts(s, m, fd, e) && !e.maxOk)
      || (m.msgType == MSG_ASK_FOR_FRIEND && QueryUser(s.users, IdOf, GetName(m), e).None?)
  {
    hide QueryUser, InsertUser, Answer, IsOnline, TalkerFd, TalkerField, AddSession, LookUp, MaxId;
    Dispatch(m.msgType);
    ReachesHandler(m.msgType);
  }

  /** The same steps of two tasks interleaved: if both looked before either inserted, the table
      keeps unique names exactly when the names differ, and a task that reads the maximum after
      the other's insert is told the other's id. */
  lemma InterleavedRegistrations(users: seq<Row>, name1: string, name2: string, fd1: int, fd2: int,
                                 pwd1: string, pwd2: string)
    requires UsersInv(users)
    requires FindUser(users, name1).None? && FindUser(users, name2).None?
    ensures var first := Insert(users, name1, fd1, pwd1, 0);
      var second := Insert(first, name2, fd2, pwd2, 0);
      && (UsersInv(second) <==> name1 != name2)
      && MaxId(second) == second[|users| + 1].userid != first[|users|].userid
  {
    hide MaxId, FindUser;
    InsertKeepsUsers(users, name1, fd1, pwd1, 0);
    var first := Insert(users, name1, fd1, pwd1, 0);
    InsertKeepsUsers(first, name2, fd2, pwd2, 0);
    FindUserFinds(users, name2);
    FindUserFinds(first, name2);
    assert first[|users|].username == name1;
    assert forall i :: 0 <= i < |users| ==> first[i] == users[i];
  }

  // ----- login

  /** The row whose password a login message matches, if the task gets that far. */
  function Matched(s: Server, m: Msg, e: Env): Option<Row> {
    if m.len > MAX_TRANS_MSG_LEN then None
    else
      match QueryUser(s.users, PasswordAndIdOf, GetName(m), e)
      case Some(Some(row)) => if GetPasswd(m) == CStr(row.password) && e.idOk then Some(row) else None
      case _ => None
  }

  /** A login adds a session exactly when it matches a row, whatever it answers: a name that is
      not found is accepted too, and no session is added.  Only an answer after a match is known
      to carry the caller's descriptor. */
  lemma LoginAddsSessionOnlyOnMatch(s: Server, m: Msg, fd: int, e: Env)
    ensures var o := LoginTask(s, m, fd, e);
      && o.Served? && o.server.users == s.users && |o.server.out| == |s.out| + 1
      && (match Matched(s, m, e)
          case Some(row) =>
            && o.server.ks == AddSession(s.ks, row.userid, GetName(m), fd, e.up1, e.up2).0
            && LastOut(o.server) == m.(id := row.userid, fd := fd, msgType := MSG_LOGIN_ACCEPT)
          case None => o.server.ks == s.ks && LastOut(o.server).fd == m.fd)
      && (LastOut(o.server).msgType == MSG_LOGIN_ACCEPT <==>
            Matched(s, m, e).Some? ||
            (m.len <= MAX_TRANS_MSG_LEN && QueryUser(s.users, PasswordAndIdOf, GetName(m), e) == Some(None)))
  {
    hide NoticeText, Answer, QueryUser, AddSession, GetName, GetPasswd;
    AnswerEffect(s, m, MSG_LOGIN_REFUSE, TooLong);
    AnswerEffect(s, m, MSG_LOGIN_REFUSE, NameNotFound);
    AnswerEffect(s, m, MSG_LOGIN_REFUSE, WrongPassword);
    AnswerEffect(s, m, MSG_LOGIN_REFUSE, IdNotFound);
  }

  /** For a name that closes and a query that fits, the matched row is that of the typed name
      exactly when the name is quotable. */
  lemma MatchedAsTyped(s: Server, m: Msg, e: Env)
    requires UsersInv(s.users) && Matched(s, m, e).Some?
    requires Closes(GetName(m)) && AskFits(PasswordAndIdOf, GetName(m))
    ensures var row := Matched(s, m, e).value;
      && FindUser(s.users, InDatabase(GetName(m))) == Some(row)
      && row.username == InDatabase(GetName(m))
      && (HasRow(s.users, row.userid, GetName(m)) <==> Quotable(GetName(m)))
  {
    hide Asked, Closes, InDatabase, AskFits, GetName, GetPasswd, Quotable;
    var name := GetName(m);
    var row := Matched(s, m, e).value;
    AskedReading(PasswordAndIdOf, name);
    FindUserFinds(s.users, InDatabase(name));
    FindUserFinds(s.users, name);
    InDatabaseAsTyped(name);
    if HasRow(s.users, row.userid, name) {
      SameIdSameName(s.users, row, name);
    }
  }

  /** In this server and environment, a login that matches has a row of its name. */
  ghost predicate MatchHasRow(s: Server, m: Msg, e: Env) {
    UsersInv(s.users) && Matched(s, m, e).Some? ==>
      HasRow(s.users, Matched(s, m, e).value.userid, GetName(m))
  }

  /** A session belongs to a row of its name, on every sound table and in every environment, exactly
      when the name is quotable or its query is no statement. */
  lemma SessionBelongsExactly(m: Msg)
    requires m.len <= 64
    ensures (forall s, e :: MatchHasRow(s, m, e)) <==>
      Quotable(GetName(m)) || Asked(PasswordAndIdOf, GetName(m)).Broken?
  {
    hide MatchHasRow, Quotable, Asked, GetName;
    if Quotable(GetName(m)) || Asked(PasswordAndIdOf, GetName(m)).Broken? {
      forall s, e ensures MatchHasRow(s, m, e) {
        PlainMatchHasRow(s, m, e);
      }
    } else {
      var s, e := OtherMatchHasNoRow(m);
    }
  }

  lemma PlainMatchHasRow(s: Server, m: Msg, e: Env)
    requires Quotable(GetName(m)) || Asked(PasswordAndIdOf, GetName(m)).Broken?
    ensures MatchHasRow(s, m, e)
  {
    hide Quotable, Asked, GetName, GetPasswd, AskFits, UsersInv, FindUser;
    AskedReading(PasswordAndIdOf, GetName(m));
  }

  /** A name that is read as another matches that one's row; a statement of another shape may find
      any row. */
  lemma OtherMatchHasNoRow(m: Msg) returns (s: Server, e: Env)
    requires m.len <= 64 && !Quotable(GetName(m)) && !Asked(PasswordAndIdOf, GetName(m)).Broken?
    ensures Matched(s, m, e).Some? && !MatchHasRow(s, m, e)
  {
    hide Quotable, Asked, GetName, GetPasswd, AskFits;
    var asked := Asked(PasswordAndIdOf, GetName(m));
    AskedReading(PasswordAndIdOf, GetName(m));
    var row := Row(1, if asked.Read? then asked.value else "", 0, GetPasswd(m));
    var users := if asked.Read? then [row] else [];
    s := Server(users, map[], []);
    e := Env(true, true, 0, true, true, true, true, true, true, Some(row), []);
    PasswdIsCStr(m);
    FindUserFinds(users, row.username);
    FindUserFinds(users, GetName(m));
    assert asked.Read? ==> FindUser(users, row.username) == Some(row);
  }

  lemma PasswdIsCStr(m: Msg)
    ensures CStr(GetPasswd(m)) == GetPasswd(m)
  {
  }

  /** For instance: a name with a lone quote can get a session without a row. */
  lemma LoneQuoteNameCanLackARow(m: Msg, a: string, b: string) returns (s: Server, e: Env)
    requires m.len <= 64 && AskFits(PasswordAndIdOf, GetName(m))
    requires GetName(m) == a + ("'" + b) && Quotable(a) && b != [] && b[0] != '\''
    ensures Matched(s, m, e).Some? && !MatchHasRow(s, m, e)
  {
    hide Asked, GetName, AskFits, Quotable, MatchHasRow, Matched;
    LoneQuote(PasswordAndIdOf, a, b);
    AskedReading(PasswordAndIdOf, GetName(m));
    s, e := OtherMatchHasNoRow(m);
  }

  /** A quotable name that is too long for the query leaves no statement and matches nothing. */
  lemma LongNamesMatchNothing(s: Server, m: Msg, e: Env)
    requires Quotable(GetName(m)) && !AskFits(PasswordAndIdOf, GetName(m))
    ensures Matched(s, m, e).None?
  {
    hide Asked, AskFits, GetName, GetPasswd, Quotable;
    AskedReading(PasswordAndIdOf, GetName(m));
  }

  /** Apart from registration and login, no handler changes the table or the keyspace. */
  lemma OthersOnlyPush(h: Handler, s: Server, m: Msg, fd: int, e: Env)
    requires h != UserReg && h != UserLog
    ensures RunHandler(h, s, m, fd, e).server.users == s.users
    ensures RunHandler(h, s, m, fd, e).server.ks == s.ks
  {
    hide RegTask, LoginTask, QueryUser, IsOnline, TalkerFd, TalkerField, AddSession, GetName, WithMsg;
  }

  // ----- what the replies say

  /** The message with another text, which fills the whole buffer and is what a receiver reads. */
  predicate Carries(r: Msg, m: Msg, text: string) {
    r.(text := m.text) == m && Holds(r.text, text) && GetName(r) == text
  }

  lemma NoticesArePlain(n: Notice)
    ensures '\0' !in NoticeText(n) && |NoticeText(n)| < MAX_TRANS_MSG_LEN
  {
    match n
    case NameTaken =>
    case InsertFailed =>
    case IdNotRead =>
    case Accepted =>
    case _ => LoginNoticesArePlain(n);
  }

  lemma LoginNoticesArePlain(n: Notice)
    requires n.TooLong? || n.NameNotFound? || n.WrongPassword? || n.IdNotFound?
    ensures '\0' !in NoticeText(n) && |NoticeText(n)| < MAX_TRANS_MSG_LEN
  {
    match n
    case TooLong =>
    case NameNotFound =>
    case WrongPassword =>
    case IdNotFound =>
  }

  lemma AnswerCarries(s: Server, m: Msg, msgType: int, n: Notice)
    ensures Carries(LastOut(Answer(s, m, msgType, n)), m.(msgType := msgType), NoticeText(n))
  {
    NoticesArePlain(n);
    hide NoticeText, Holds, GetName;
    MessageIsHeld(m.(msgType := msgType), NoticeText(n));
    SettersKeepFields(m.(msgType := msgType), Message(NoticeText(n)));
  }

  /** The source's texts. */
  lemma NoticesAsWritten()
    ensures NoticeText(NameTaken) == "regin err! name reg exists already!"
    ensures NoticeText(InsertFailed) == "regin err! insert error!\n"
    ensures NoticeText(IdNotRead) == "regin err no found current id! \n"
    ensures NoticeText(Accepted) == "regin accepted! \n"
    ensures NoticeText(TooLong) == "Login err! msg len too long! \n"
    ensures NoticeText(NameNotFound) == "Login err! not found name\n"
    ensures NoticeText(WrongPassword) == "Login err! password not equal!\n"
    ensures NoticeText(IdNotFound) == "Login err! id not found!\n"
  {
  }

  lemma AddressKeepsTexts(m: Msg, fd: int)
    ensures GetName(m.(fd := fd)) == GetName(m) && GetPasswd(m.(fd := fd)) == GetPasswd(m)
  {
  }

  /** A served registration is answered with the notice of its outcome, and the reply is otherwise
      the request, to the requester's descriptor. */
  lemma RegistrationReplies(s: Server, m: Msg, fd: int, e: Env)
    requires m.len <= 64 && RegTask(s, m, fd, e).Served?
    ensures var t := RegTask(s, m, fd, e).server;
      var found := QueryUser(s.users, PasswordOf, GetName(m), e);
      var inserted := InsertUser(s.users, GetName(m), fd, GetPasswd(m), e);
      var refusal := m.(fd := fd, msgType := MSG_REG_REFUSE);
      && found.Some?
      && (found.value.Some? ==> Carries(LastOut(t), refusal, NoticeText(NameTaken)))
      && (found.value.None? && inserted.None? ==> Carries(LastOut(t), refusal, NoticeText(InsertFailed)))
      && (found.value.None? && inserted.Some? && !e.maxRow ==>
            Carries(LastOut(t), refusal, NoticeText(IdNotRead)))
      && (found.value.None? && inserted.Some? && e.maxRow ==>
            Carries(LastOut(t), m.(fd := fd, msgType := MSG_REG_ACCEPT, id := MaxId(t.users)), NoticeText(Accepted)))
  {
    var obj := m.(fd := fd);
    hide NoticeText, Answer, QueryUser, InsertUser, MaxId, Carries, GetName, GetPasswd, LastOut;
    AddressKeepsTexts(m, fd);
    AnswerCarries(s, obj, MSG_REG_REFUSE, NameTaken);
    AnswerCarries(s, obj, MSG_REG_REFUSE, InsertFailed);
    var inserted := InsertUser(s.users, GetName(m), fd, GetPasswd(m), e);
    if inserted.Some? {
      var t := s.(users := inserted.value);
      AnswerCarries(t, obj, MSG_REG_REFUSE, IdNotRead);
      AnswerEffect(t, obj.(id := MaxId(t.users)), MSG_REG_ACCEPT, Accepted);
      AnswerCarries(t, obj.(id := MaxId(t.users)), MSG_REG_ACCEPT, Accepted);
    }
  }

  /** A login that does not match is answered with the notice of its outcome, except that a name
      without a row is accepted, with the request unchanged but for its type. */
  lemma LoginReplies(s: Server, m: Msg, fd: int, e: Env)
    ensures var t := LoginTask(s, m, fd, e).server;
      var found := QueryUser(s.users, PasswordAndIdOf, GetName(m), e);
      var refusal := m.(msgType := MSG_LOGIN_REFUSE);
      && (m.len > 64 ==> Carries(LastOut(t), refusal, NoticeText(TooLong)))
      && (m.len <= 64 && found.None? ==> Carries(LastOut(t), refusal, NoticeText(NameNotFound)))
      && (m.len <= 64 && found == Some(None) ==> LastOut(t) == m.(msgType := MSG_LOGIN_ACCEPT))
      && (m.len <= 64 && found.Some? && found.value.Some? ==>
            var same := GetPasswd(m) == CStr(found.value.value.password);
            && (!same ==> Carries(LastOut(t), refusal, NoticeText(WrongPassword)))
            && (same && !e.idOk ==> Carries(LastOut(t), refusal, NoticeText(IdNotFound))))
  {
    hide NoticeText, Answer, QueryUser, Carries, GetName, GetPasswd, CStr, AddSession;
    AnswerCarries(s, m, MSG_LOGIN_REFUSE, TooLong);
    AnswerCarries(s, m, MSG_LOGIN_REFUSE, NameNotFound);
    AnswerCarries(s, m, MSG_LOGIN_REFUSE, WrongPassword);
    AnswerCarries(s, m, MSG_LOGIN_REFUSE, IdNotFound);
  }

  /** A friend request for a name without a row is sent back to the requester as not found. */
  lemma UnknownFriendIsAnswered(s: Server, m: Msg, fd: int, e: Env)
    requires m.msgType == MSG_ASK_FOR_FRIEND && QueryUser(s.users, IdOf, GetName(m), e) == Some(None)
    ensures var o := Handle(s, m, fd, e);
      && o.Served? && o.server.users == s.users && o.server.ks == s.ks
      && o.server.out == s.out + [m.(msgType := MSG_ASK_FOR_FRIEND_NOT_FOUND, fd := fd)]
  {
    hide QueryUser, GetName, LookUp, RegTask, LoginTask, TalkTask, AcceptTask;
    ReachesHandler(m.msgType);
  }

  /** The five types that a handler acts on; any other message changes nothing. */
  lemma OtherTypesAreIgnored(s: Server, m: Msg, fd: int, e: Env)
    requires m.msgType !in {MSG_TALK, MSG_REG, MSG_LOGIN, MSG_ASK_FOR_FRIEND, MSG_ASK_FOR_FRIEND_ACCEPT}
    ensures Handle(s, m, fd, e) == Served(s)
  {
    hide LookUp, RegTask, LoginTask, TalkTask, AskTask, AcceptTask;
    ReachesHandler(m.msgType);
  }

  /** Without an answer from Redis nobody is online, so that talk, friend requests and acceptances
      are dropped; and one whose receiver was found online goes to descriptor -1, and an
      acceptance without a name keeps its text. */
  lemma WithoutRedis(s: Server, m: Msg, fd: int, e: Env)
    requires !e.up1 || !e.up2
    ensures !e.up1 ==> TalkTask(s, m, e) == AcceptTask(s, m, e) == Served(s)
    ensures var found := QueryUser(s.users, IdOf, GetName(m), e);
      found.Some? && found.value.Some? ==>
        var id := found.value.value.userid;
        AskTask(s, m, fd, e)
          == Served(if IsOnline(s.ks, id, e.up1) then Push(s, m.(recverId := id, fd := -1)) else s)
          && (!e.up1 ==> AskTask(s, m, fd, e) == Served(s))
    ensures e.up1 && !e.up3 ==>
      AcceptTask(s, m, e) == Served(if IsOnline(s.ks, m.recverId, true) then Push(s, m.(fd := -1)) else s)
  {
    hide QueryUser, GetName, WithMsg;
    WithoutAnswers(s.ks, m.recverId, "fd");
    WithoutAnswers(s.ks, m.id, "name");
    var found := QueryUser(s.users, IdOf, GetName(m), e);
    if found.Some? && found.value.Some? {
      WithoutAnswers(s.ks, found.value.value.userid, "fd");
    }
    hide ExecuteCmd, CommandText, IsOnline, TalkerFd, TalkerField;
  }

  // ----- no handler produces the sentinel

  /** The buffer grows by at most one message, of one of the given types. */
  predicate AddsOneOf(s: Server, t: Server, types: set<int>) {
    && |s.out| <= |t.out| <= |s.out| + 1 && t.out[..|s.out|] == s.out
    && forall i :: |s.out| <= i < |t.out| ==> t.out[i].msgType in types
  }

  lemma LongRegistration(s: Server, m: Msg, fd: int, e: Env)
    ensures m.len > 64 ==> RegTask(s, m, fd, e) == Served(s)
  {
  }

  lemma RegAddsOne(s: Server, m: Msg, fd: int, e: Env)
    ensures AddsOneOf(s, RegTask(s, m, fd, e).server, {MSG_REG_ACCEPT, MSG_REG_REFUSE})
  {
    hide RegTask, RegInserts, QueryUser, InsertUser, GetName, GetPasswd, MaxId, NoticeText;
    if RegInserts(s, m, fd, e) {
      RegistrationThatInserts(s, m, fd, e);
    } else {
      RegistrationThatRefuses(s, m, fd, e);
      LongRegistration(s, m, fd, e);
    }
  }

  lemma LoginAddsOne(s: Server, m: Msg, fd: int, e: Env)
    ensures AddsOneOf(s, LoginTask(s, m, fd, e).server, {MSG_LOGIN_ACCEPT, MSG_LOGIN_REFUSE})
  {
    hide NoticeText, Answer, QueryUser, AddSession, GetName, GetPasswd;
    AnswerEffect(s, m, MSG_LOGIN_REFUSE, TooLong);
    AnswerEffect(s, m, MSG_LOGIN_REFUSE, NameNotFound);
    AnswerEffect(s, m, MSG_LOGIN_REFUSE, WrongPassword);
    AnswerEffect(s, m, MSG_LOGIN_REFUSE, IdNotFound);
  }

  lemma OthersAddOne(h: Handler, s: Server, m: Msg, fd: int, e: Env)
    requires h != UserReg && h != UserLog
    ensures AddsOneOf(s, RunHandler(h, s, m, fd, e).server, {m.msgType, MSG_ASK_FOR_FRIEND_NOT_FOUND})
  {
    hide RegTask, LoginTask, QueryUser, IsOnline, TalkerFd, TalkerField, AddSession, GetName, CStr, Cell;
  }

  lemma HandlerAddsOne(h: Handler, s: Server, m: Msg, fd: int, e: Env)
    ensures AddsOneOf(s, RunHandler(h, s, m, fd, e).server,
                      {m.msgType, MSG_ASK_FOR_FRIEND_NOT_FOUND, MSG_REG_ACCEPT, MSG_REG_REFUSE,
                       MSG_LOGIN_ACCEPT, MSG_LOGIN_REFUSE})
  {
    hide RegTask, LoginTask, TalkTask, AskTask, AcceptTask;
    match h
    case UserReg => RegAddsOne(s, m, fd, e);
    case UserLog => LoginAddsOne(s, m, fd, e);
    case _ => OthersAddOne(h, s, m, fd, e);
  }

  /** Whatever arrives, the messages a handler adds have neither the sentinel's type nor the
      logout type, and nothing already in the buffer changes. */
  lemma NoSentinelFromHandlers(s: Server, m: Msg, fd: int, e: Env)
    ensures var out := Handle(s, m, fd, e).server.out;
      && |s.out| <= |out| <= |s.out| + 1 && out[..|s.out|] == s.out
      && forall i :: |s.out| <= i < |out| ==> out[i].msgType !in {MSG_BUTTON, MSG_LOGOUT}
  {
    hide RunHandler, LookUp, RegTask, LoginTask, TalkTask, AskTask, AcceptTask, NoticeText, Answer;
    if m.msgType in {MSG_LOGOUT, MSG_BUTTON} {
      NotDispatched(m.msgType);
    }
    var h := LookUp(TABLE, m.msgType);
    if h.Some? {
      HandlerAddsOne(h.value, s, m, fd, e);
    }
  }

  // ----- the object

  /** The server: its table, its outgoing buffer and its registry of sessions, changed in place,
      as is the message object that each task rewrites and pushes. */
  class MsgServer {
    var users: seq<Row>
    var out: seq<Msg>
    const com: ComManger

    ghost function State(): Server
      reads this, com.client
    {
      Server(users, com.client.keyspace, out)
    }

    constructor (com: ComManger)
      ensures this.com == com && State() == Server([], com.client.keyspace, [])
    {
      this.com, users, out := com, [], [];
    }

    method PushObj(obj: TransObj)
      requires obj.Valid()
      modifies this`out
      ensures out == old(out) + [obj.Value()]
    {
      var m := obj.Snapshot();
      out := out + [m];
    }

    method SetTypeAndText(obj: TransObj, msgType: int, n: Notice)
      requires obj.Valid()
      modifies this`out, obj, obj.msg
      ensures State() == Answer(old(State()), old(obj.Value()), msgType, n)
    {
      hide NoticeText;
      obj.msgType := msgType;
      var ok := obj.SetMsg(NoticeText(n));
      PushObj(obj);
    }

    /** `MysqlPool::ExecQuery` with one of the SELECT formats: renders the text into the buffer
        and runs what the database reads in it. */
    method ExecQuery(q: Query, name: string, e: Env) returns (result: Option<Option<Row>>)
      ensures result == QueryUser(users, q, name, e)
    {
      var cmdBuf := Fit(SelectText(Prefix(q), name));
      match ReadSelect(Prefix(q), cmdBuf) {
        case Broken => result := None;
        case Read(v) => result := if e.queryOk then Some(FindUser(users, v)) else None;
        case Stray => result := if e.queryOk then Some(e.strayRow) else None;
      }
    }

    /** `MysqlPool::ExecInsert` with the INSERT format. */
    method ExecInsert(name: string, fd: int, password: string, e: Env) returns (res: bool)
      modifies this`users
      ensures var inserted := InsertUser(old(users), name, fd, password, e);
        res == inserted.Some? && users == if res then inserted.value else old(users)
    {
      var cmdBuf := Fit(InsertText(InsertPrefix(), name, ToString(fd), password));
      var reading := ReadInsert(InsertPrefix(), cmdBuf);
      if !e.insertOk || reading.Broken? {
        return false;
      }
      if reading.Read? {
        users := Insert(users, reading.value.username, Atoi(reading.value.fd), reading.value.password, e.gap);
      } else {
        users := e.strayTable;
      }
      return true;
    }

    method HandleUserRegMsg(obj: TransObj, fd: int, e: Env) returns (crashed: bool)
      requires obj.Valid()
      modifies this, obj, obj.msg
      ensures (if crashed then Crashed(State()) else Served(State()))
           == RegTask(old(State()), old(obj.Value()), fd, e)
    {
      hide NoticeText, Answer, QueryUser, InsertUser, MaxId;
      if obj.len > NAME_MAX_LEN + PASSWORD_MAX_LEN {
        return false;
      }
      obj.fd := fd;
      var name := CStr(obj.msg[..]);
      var found := ExecQuery(PasswordOf, name, e);
      if found.None? {
        return true;
      }
      if found.value.Some? {
        SetTypeAndText(obj, MSG_REG_REFUSE, NameTaken);
        return false;
      }
      var passwd := CStr(obj.msg[..][NAME_MAX_LEN..]);
      var res := ExecInsert(name, fd, passwd, e);
      if res {
        if !e.maxOk {
          return true;
        }
        if !e.maxRow {
          SetTypeAndText(obj, MSG_REG_REFUSE, IdNotRead);
        } else {
          obj.id := MaxId(users);
          SetTypeAndText(obj, MSG_REG_ACCEPT, Accepted);
        }
        return false;
      }
      SetTypeAndText(obj, MSG_REG_REFUSE, InsertFailed);
      return false;
    }

    method HandleUserLogMsg(obj: TransObj, fd: int, e: Env)
      requires obj.Valid() && com.client.Accounted()
      modifies this, obj, obj.msg, com.client
      ensures com.client.Accounted()
      ensures Served(State()) == LoginTask(old(State()), old(obj.Value()), fd, e)
    {
      hide NoticeText, Answer, AddSession, QueryUser;
      if obj.len > MAX_TRANS_MSG_LEN {
        SetTypeAndText(obj, MSG_LOGIN_REFUSE, TooLong);
        return;
      }
      var name := CStr(obj.msg[..]);
      var found := ExecQuery(PasswordAndIdOf, name, e);
      if found.None? {
        SetTypeAndText(obj, MSG_LOGIN_REFUSE, NameNotFound);
        return;
      }
      if found.value.Some? {
        var row := found.value.value;
        var passwd := CStr(obj.msg[..][NAME_MAX_LEN..]);
        if passwd != CStr(row.password) {
          SetTypeAndText(obj, MSG_LOGIN_REFUSE, WrongPassword);
          return;
        }
        if !e.idOk {
          SetTypeAndText(obj, MSG_LOGIN_REFUSE, IdNotFound);
          return;
        }
        obj.id := row.userid;
        obj.fd := fd;
        var added := com.AddSessionTalker(obj.id, name, fd, Link(true, e.up1), Link(true, e.up2));
      }
      obj.msgType := MSG_LOGIN_ACCEPT;
      PushObj(obj);
    }

    method HandleUserSendMsg(obj: TransObj, e: Env)
      requires obj.Valid() && com.client.Accounted()
      modifies this, com.client
      ensures com.client.Accounted()
      ensures Served(State()) == TalkTask(old(State()), old(obj.Value()), e)
    {
      hide IsOnline;
      var online := com.IsTalkerOnline(obj.recverId, Link(true, e.up1));
      if online {
        PushObj(obj);
      }
    }

    method HandleAskForFriendMsg(obj: TransObj, fd: int, e: Env) returns (crashed: bool)
      requires obj.Valid() && com.client.Accounted()
      modifies this, obj, obj.msg, com.client
      ensures com.client.Accounted()
      ensures (if crashed then Crashed(State()) else Served(State()))
           == AskTask(old(State()), old(obj.Value()), fd, e)
    {
      hide IsOnline, TalkerFd, QueryUser;
      var found := ExecQuery(IdOf, CStr(obj.msg[..]), e);
      if found.None? {
        return true;
      }
      if found.value.None? {
        obj.msgType := MSG_ASK_FOR_FRIEND_NOT_FOUND;
        obj.fd := fd;
        PushObj(obj);
        return false;
      }
      obj.recverId := found.value.value.userid;
      var online := com.IsTalkerOnline(obj.recverId, Link(true, e.up1));
      if online {
        var talkerFd := com.GetTalkerFd(obj.recverId, Link(true, e.up2));
        obj.fd := talkerFd;
        PushObj(obj);
      }
      return false;
    }

    method HandleAskForFriendAcceptMsg(obj: TransObj, e: Env)
      requires obj.Valid() && com.client.Accounted()
      modifies this, obj, obj.msg, com.client
      ensures com.client.Accounted()
      ensures Served(State()) == AcceptTask(old(State()), old(obj.Value()), e)
    {
      hide IsOnline, TalkerFd, TalkerField;
      var online := com.IsTalkerOnline(obj.recverId, Link(true, e.up1));
      if !online {
        return;
      }
      var fd := com.GetTalkerFd(obj.recverId, Link(true, e.up2));
      obj.fd := fd;
      var name := com.GetTalkerName(obj.id, Link(true, e.up3));
      if name.Some? {
        if |name.value| >= NAME_MAX_LEN {
          return;
        }
        var ok := obj.SetMsg(name.value);
      }
      PushObj(obj);
    }

    method HandleUserLogOutMsg(obj: TransObj, e: Env)
      requires obj.Valid() && com.client.Accounted()
      modifies com.client
      ensures com.client.Accounted()
      ensures State() == LogOutTask(old(State()), old(obj.Value()), e)
    {
      var removed := com.RemoveSessionTalker(obj.id, Link(true, e.up1), Link(true, e.up2));
    }

    /** The loop over the dispatch table. */
    static method FindHandler(table: seq<(int, Handler)>, msgType: int) returns (h: Option<Handler>)
      ensures h == LookUp(table, msgType)
    {
      for loop := 0 to |table|
        invariant LookUp(table, msgType) == LookUp(table[loop..], msgType)
      {
        if table[loop].0 == msgType {
          return Some(table[loop].1);
        }
      }
      return None;
    }

    /** `MsgHandler::handle`, with the task it enqueues run at once. */
    method HandleObj(obj: TransObj, fd: int, e: Env) returns (crashed: bool)
      requires obj.Valid() && com.client.Accounted()
      modifies this, obj, obj.msg, com.client
      ensures com.client.Accounted()
      ensures (if crashed then Crashed(State()) else Served(State()))
           == Handle(old(State()), old(obj.Value()), fd, e)
    {
      hide RegTask, LoginTask, TalkTask, AskTask, AcceptTask, LookUp;
      crashed := false;
      var h := FindHandler(TABLE, obj.msgType);
      match h {
        case Some(UserSend) => HandleUserSendMsg(obj, e);
        case Some(UserReg) => crashed := HandleUserRegMsg(obj, fd, e);
        case Some(UserLog) => HandleUserLogMsg(obj, fd, e);
        case Some(AskForFriend) => crashed := HandleAskForFriendMsg(obj, fd, e);
        case Some(AskForFriendAccept) => HandleAskForFriendAcceptMsg(obj, e);
        case _ =>
      }
    }
  }
}
