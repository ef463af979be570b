/** From a typed line to the server's tables: the parser, the buffer, the wire and the handlers
    together. */
module EndToEnd {
  import opened Wrappers
  import opened Text
  import opened Sql
  import opened SeqAbleObj
  import opened Util
  import opened HandleMsg
  import Client
  import ComManger
  import Sessions

  /** What the server reads of the message that a line becomes. */
  function Delivered(table: Aliasing, input: string, p: Player, memory: Buffer, socket: int): Option<Msg> {
    match Parse(table, input, p, memory)
    case None => None
    case Some(m) => Some(TransBuff2Obj(ZERO_MSG, Client.PacketOf(Client.ClientBuild(socket), m).bytes))
  }

  lemma CredentialFields(msgType: int, name: string, pwd: string, memory: Buffer)
    requires msgType in {MSG_LOGIN, MSG_REG}
    ensures var m := WithNamePasswd(Msg(msgType, MAX_TRANS_MSG_LEN, -1, -1, -1, memory), name, pwd);
      m.msgType == msgType && Client.Object(Some(m))
  {
  }

  /** A typed name and password arrive printed as formats, which is as typed exactly for defined
      formats without a percent sign; only `len` is lost, and reads 0. */
  lemma TypedCredentialsArrive(table: Aliasing, input: string, command: Command, name: string, pwd: string,
                               p: Player, memory: Buffer, socket: int)
    requires command == Login || command == Regin
    requires Says(table, input, command, name, pwd) && '\0' !in input
    ensures match Delivered(table, input, p, memory, socket)
      case Some(m) =>
        && m.msgType == TypeOf(command) && m.len == 0
        && GetName(m) == Printed(name) && GetPasswd(m) == Printed(pwd)
        && (Defined(name) && GetName(m) == name <==> '%' !in name)
        && (Defined(pwd) && GetPasswd(m) == pwd <==> '%' !in pwd)
      case None => false
  {
    hide Parse, Says, WithNamePasswd, TransBuff2Obj, Client.PacketOf, Printed, Defined;
    TypedCredentialsAreRead(table, input, command, name, pwd, p, memory);
    SaysParses(table, input, command, name, pwd, p, memory);
    var m := Parse(table, input, p, memory).value;
    CredentialFields(TypeOf(command), name, pwd, memory);
    Client.PacketIsRead(Client.ClientBuild(socket), m);
  }

  lemma ArrivedIsShort(table: Aliasing, input: string, command: Command, name: string, pwd: string)
    requires Says(table, input, command, name, pwd) && '\0' !in input
    ensures |Printed(name)| <= 23 && CStr(Printed(pwd)) == Printed(pwd)
  {
    hide Says;
    SaidTextIsPlain(table, input, command, name, pwd);
  }

  /** No received message trips a length guard: a served registration is always answered. */
  lemma GuardsNeverFire(s: Server, buff: string, fd: int, e: Env)
    requires |buff| >= OBJ_SIZE
    ensures var m := TransBuff2Obj(ZERO_MSG, buff);
      && !(m.len > NAME_MAX_LEN + PASSWORD_MAX_LEN) && !(m.len > MAX_TRANS_MSG_LEN)
      && (m.msgType == MSG_REG && Handle(s, m, fd, e).Served? ==> Answered(s, Handle(s, m, fd, e).server, fd))
  {
    hide Handle, RegTask, RegInserts, Uint32At, Int32At, InsertUser, QueryUser, LastOut;
    var m := TransBuff2Obj(ZERO_MSG, buff);
    if m.msgType == MSG_REG {
      Sessions.HandlesRegistration(s, m, fd, e);
      if RegInserts(s, m, fd, e) {
        RegistrationThatInserts(s, m, fd, e);
      } else {
        RegistrationThatRefuses(s, m, fd, e);
      }
    }
  }

  /** The database answers throughout. */
  predicate Answers(e: Env) { e.queryOk && e.insertOk && e.maxOk && e.maxRow && e.idOk }

  /** A short name that closes is asked for; whether it can be registered depends on the room that
      name, descriptor and password take. */
  lemma InsertsIfItFits(s: Server, m: Msg, fd: int, e: Env)
    requires m.len == 0 && Answers(e) && Closes(GetName(m)) && Closes(GetPasswd(m)) && |GetName(m)| <= 23
    requires FindUser(s.users, InDatabase(GetName(m))).None?
    ensures RegInserts(s, m, fd, e) <==> StoreFits(GetName(m), fd, GetPasswd(m))
    ensures QueryUser(s.users, PasswordOf, GetName(m), e) == Some(None)
  {
    hide Asked, Stored, Closes, InDatabase, StoreFits, GetName, GetPasswd, FindUser, Prefix, MaxId;
    AskedReading(PasswordOf, GetName(m));
    StoredReading(GetName(m), fd, GetPasswd(m));
  }

  /** A registration of a new name is accepted exactly when its statement fits; then the row is
      the one the database reads, and otherwise nothing changes. */
  lemma RegistrationRuns(s: Server, m: Msg, fd: int, e: Env)
    requires m.msgType == MSG_REG && m.len == 0 && Answers(e) && UsersInv(s.users)
    requires Closes(GetName(m)) && Closes(GetPasswd(m)) && |GetName(m)| <= 23
    requires FindUser(s.users, InDatabase(GetName(m))).None?
    ensures var o := Handle(s, m, fd, e);
      && o.Served? && UsersInv(o.server.users) && o.server.ks == s.ks && LastOut(o.server).fd == fd
      && (if StoreFits(GetName(m), fd, GetPasswd(m))
          then Registered(s, o.server, InDatabase(GetName(m)), fd, InDatabase(GetPasswd(m)))
            && LastOut(o.server).msgType == MSG_REG_ACCEPT && LastOut(o.server).id == LastRow(o.server).userid
          else o.server.users == s.users && LastOut(o.server).msgType == MSG_REG_REFUSE)
  {
    hide Handle, RegTask, RegInserts, QueryUser, InsertUser, StoreFits, Closes, InDatabase;
    hide GetName, GetPasswd, FindUser, UsersInv, LastOut, LastRow, MaxId;
    Sessions.HandlesRegistration(s, m, fd, e);
    InsertsIfItFits(s, m, fd, e);
    RegistrationIsSound(s, m, fd, e);
    ServedIfAnswered(s, m, fd, e);
    if RegInserts(s, m, fd, e) {
      RegistrationThatInserts(s, m, fd, e);
    } else {
      RegistrationThatRefuses(s, m, fd, e);
    }
  }

  lemma ServedIfAnswered(s: Server, m: Msg, fd: int, e: Env)
    requires Answers(e) && QueryUser(s.users, PasswordOf, GetName(m), e).Some?
    ensures RegTask(s, m, fd, e).Served?
  {
    hide QueryUser, InsertUser, Answer, MaxId;
  }

  /** The row just inserted is the one that a look-up of its name finds. */
  lemma RegisteredIsFound(s: Server, t: Server, name: string, fd: int, pwd: string)
    requires UsersInv(t.users) && Registered(s, t, name, fd, pwd)
    ensures FindUser(t.users, name) == Some(LastRow(t))
    ensures LastRow(t).username == name && LastRow(t).password == pwd && LastRow(t) in t.users
  {
    FindUserFinds(t.users, name);
    var i :| 0 <= i < |t.users| && t.users[i] == LastRow(t);
    assert t.users[i].username == name;
    var j :| 0 <= j < |t.users| && t.users[j] == FindUser(t.users, name).value;
  }

  /** A login matches the row that a registration under the same typed name has just inserted
      exactly with the password that the database holds. */
  lemma MatchesRegistered(s: Server, t: Server, m: Msg, name: string, fd: int, held: string, e: Env)
    requires UsersInv(t.users) && Registered(s, t, InDatabase(name), fd, held)
    requires m.len == 0 && GetName(m) == name && Closes(name) && |name| <= 23 && Answers(e)
    ensures QueryUser(t.users, PasswordAndIdOf, name, e) == Some(Some(LastRow(t)))
    ensures Matched(t, m, e) == if GetPasswd(m) == CStr(held) then Some(LastRow(t)) else None
    ensures HasRow(t.users, LastRow(t).userid, name) <==> Quotable(name)
  {
    hide Asked, Closes, InDatabase, Registered, LastRow, FindUser, UsersInv, Prefix, Quotable, GetName, GetPasswd;
    AskedReading(PasswordAndIdOf, name);
    RegisteredIsFound(s, t, InDatabase(name), fd, held);
    InDatabaseAsTyped(name);
    if HasRow(t.users, LastRow(t).userid, name) {
      SameIdSameName(t.users, LastRow(t), name);
    }
  }

  /** A login against the row that a registration has just inserted. */
  lemma LoginAfterRegistration(s: Server, t: Server, m: Msg, name: string, fd: int, held: string, fd2: int, e: Env)
    requires UsersInv(t.users) && Registered(s, t, InDatabase(name), fd, held)
    requires m.msgType == MSG_LOGIN && m.len == 0 && GetName(m) == name
    requires Closes(name) && |name| <= 23 && Answers(e)
    ensures var u := Handle(t, m, fd2, e).server;
      var id := LastRow(t).userid;
      && u.users == t.users
      && u.ks == (if GetPasswd(m) == CStr(held)
                  then ComManger.AddSession(t.ks, id, name, fd2, e.up1, e.up2).0 else t.ks)
      && LastOut(u).msgType == (if GetPasswd(m) == CStr(held) then MSG_LOGIN_ACCEPT else MSG_LOGIN_REFUSE)
      && (GetPasswd(m) == CStr(held) ==> LastOut(u).id == id && LastOut(u).fd == fd2)
      && (HasRow(u.users, id, name) <==> Quotable(name))
  {
    hide Handle, LoginTask, ComManger.AddSession, UsersInv, Registered, LastRow, Matched, QueryUser;
    hide Closes, InDatabase, Quotable, HasRow;
    MatchesRegistered(s, t, m, name, fd, held, e);
    Sessions.HandlesLogin(t, m, fd2, e);
    LoginAddsSessionOnlyOnMatch(t, m, fd2, e);
    LoginAddsOne(t, m, fd2, e);
  }

  /** The password held by the database is the typed one, for the login's comparison, exactly when
      that is quotable. */
  lemma HeldPasswordIsTyped(pwd: string)
    requires Closes(pwd) && '\0' !in pwd
    ensures CStr(InDatabase(pwd)) == pwd <==> Quotable(pwd)
  {
    InDatabaseAsTyped(pwd);
    LiteralShrinks(pwd);
    if CStr(InDatabase(pwd)) == pwd {
      assert |CStr(InDatabase(pwd))| == |InDatabase(pwd)|;
    }
  }

  /** A user who registers by typing a line and logs in by typing another under the same name.
      With what arrives of name and password, both closing: the registration is accepted exactly
      when its statement fits; the login adds a session, for the id that the registration was
      answered with, exactly when it gives the password that the database holds, and otherwise is
      refused and changes nothing; and that id has a row of the name exactly when it is quotable. */
  lemma RegisterThenLogin(table: Aliasing, s: Server, line1: string, line2: string,
                          name: string, pwd: string, pwd2: string,
                          p: Player, memory: Buffer, socket: int, fd1: int, fd2: int, e1: Env, e2: Env)
    requires Says(table, line1, Regin, name, pwd) && '\0' !in line1
    requires Says(table, line2, Login, name, pwd2) && '\0' !in line2
    requires Defined(name) && Defined(pwd) && Defined(pwd2)
    requires Closes(Printed(name)) && Closes(Printed(pwd))
    requires UsersInv(s.users) && FindUser(s.users, InDatabase(Printed(name))).None?
    requires Answers(e1) && Answers(e2)
    ensures Delivered(table, line1, p, memory, socket).Some? && Delivered(table, line2, p, memory, socket).Some?
    ensures var t := Handle(s, Delivered(table, line1, p, memory, socket).value, fd1, e1).server;
      var u := Handle(t, Delivered(table, line2, p, memory, socket).value, fd2, e2).server;
      var (n, id, held) := (Printed(name), LastOut(t).id, CStr(InDatabase(Printed(pwd))));
      if StoreFits(n, fd1, Printed(pwd)) then
        && LastOut(t).msgType == MSG_REG_ACCEPT && LastOut(t).fd == fd1
        && u.users == t.users && (HasRow(u.users, id, n) <==> Quotable(n))
        && u.ks == (if Printed(pwd2) == held
                    then ComManger.AddSession(t.ks, id, n, fd2, e2.up1, e2.up2).0 else t.ks)
        && LastOut(u).msgType == (if Printed(pwd2) == held then MSG_LOGIN_ACCEPT else MSG_LOGIN_REFUSE)
        && (Printed(pwd2) == held ==> LastOut(u).id == id && LastOut(u).fd == fd2)
      else t.users == s.users && LastOut(t).msgType == MSG_REG_REFUSE && LastOut(t).fd == fd1
  {
    hide Says, Delivered, Handle, ComManger.AddSession, UsersInv, Registered, Closes, InDatabase, StoreFits, Quotable;
    hide FindUser, LastRow, LastOut, GetName, GetPasswd, HasRow, Printed, Defined, CStr;
    TypedCredentialsArrive(table, line1, Regin, name, pwd, p, memory, socket);
    TypedCredentialsArrive(table, line2, Login, name, pwd2, p, memory, socket);
    ArrivedIsShort(table, line1, Regin, name, pwd);
    var m1 := Delivered(table, line1, p, memory, socket).value;
    var m2 := Delivered(table, line2, p, memory, socket).value;
    RegistrationRuns(s, m1, fd1, e1);
    if StoreFits(Printed(name), fd1, Printed(pwd)) {
      var t := Handle(s, m1, fd1, e1).server;
      LoginAfterRegistration(s, t, m2, Printed(name), fd1, InDatabase(Printed(pwd)), fd2, e2);
    }
  }

  /** For instance: on an empty table, a registration that inserts and a login that matches. */
  lemma SomeoneRegistersAndLogsIn(name: string, pwd: string) returns (s: Server, t: Server, m: Msg, e: Env)
    requires name == "bob" && pwd == "pw"
    ensures UsersInv(s.users) && GetName(m) == name && GetPasswd(m) == pwd && Quotable(name) && Quotable(pwd)
    ensures RegInserts(s, m, 7, e) && UsersInv(t.users) && Matched(t, m, e).Some?
  {
    hide Registered, FindUser, Quotable, Literal, Prefix, InsertPrefix, Asked, Stored, RegInserts, Matched, Cell;
    PlainIsQuotable(name);
    PlainIsQuotable(pwd);
    QuotableCloses(name);
    QuotableCloses(pwd);
    s := Server([], map[], []);
    m := WithNamePasswd(ZERO_MSG, name, pwd);
    e := Env(true, true, 0, true, true, true, true, true, true, None, []);
    FindUserFinds(s.users, name);
    PlainCredentials(name, pwd);
    assert ToString(7) == "7";
    StoreFitsExactly(name, 7, pwd);
    InsertsIfItFits(s, m, 7, e);
    RegistrationIsSound(s, m, 7, e);
    t := RegTask(s, m, 7, e).server;
    MatchesRegistered(s, t, m, name, 7, pwd, e);
  }

  lemma PlainCredentials(name: string, pwd: string)
    requires |name| <= 23 && |pwd| <= 39 && '\0' !in name && '\0' !in pwd && '%' !in name && '%' !in pwd
    ensures GetName(WithNamePasswd(ZERO_MSG, name, pwd)) == name && CStr(name) == name
    ensures GetPasswd(WithNamePasswd(ZERO_MSG, name, pwd)) == pwd && CStr(pwd) == pwd
    ensures WithNamePasswd(ZERO_MSG, name, pwd).len == 0
  {
    PrintedAsGiven(name);
    PrintedAsGiven(pwd);
    SetBoth(ZERO_MSG, name, pwd);
  }

  /** Nobody who pushes without waiting pushes the sender's stop message: neither a parsed line,
      nor any handler, whatever it was sent. */
  lemma PushersNeverStop(table: Aliasing, input: string, p: Player, memory: Buffer, s: Server, m: Msg, fd: int, e: Env)
    ensures !Client.IsStop(Parse(table, input, p, memory))
    ensures forall i :: |s.out| <= i < |Handle(s, m, fd, e).server.out| ==>
      !Client.IsStop(Some(Handle(s, m, fd, e).server.out[i]))
  {
    hide Parse, Handle;
    NoSentinelFromInput(table, input, p, memory);
    NoSentinelFromHandlers(s, m, fd, e);
  }
}
