/** The client's command language: `alias@argument`, and `name|password` inside a login or a
    registration; a line without `@` is talk. */
module Util {
  import opened Wrappers
  import opened Text
  import opened SeqAbleObj

  datatype Command =
    | Login | Logout | Regin | AskForFriend | ChoseTalker
    | ShowFriends | ShowRequests | AccRequest | ShowMySelf

  type Aliasing = seq<(string, Command)>

  function Entries(names: seq<string>, command: Command): (e: Aliasing)
    ensures forall i :: 0 <= i < |e| ==> e[i].1 == command
  {
    seq(|names|, i requires 0 <= i < |names| => (names[i], command))
  }

  function Names(command: Command): seq<string> {
    match command
    case Login => ["li", "login", "Login", "LOGIN"]
    case Logout => ["lo", "logout", "Logout", "LOGOUT"]
    case Regin => ["rg", "regin", "Regin", "REGIN"]
    case AskForFriend => ["ad", "add", "Add"]
    case ChoseTalker => ["ch", "chose", "Chose", "CHOSE"]
    case ShowFriends => ["sf", "showfriends", "showFriends", "ShowFriends"]
    case ShowRequests => ["sr", "showrequests", "showRequests", "ShowRequests", "SHOWREQUESTS"]
    case AccRequest => ["ar", "acceptrequest", "acceptRequest", "Acceptrequest", "ACCEPTREQUEST"]
    case ShowMySelf => ["Me", "me"]
  }

  function TableOf(commands: seq<Command>): Aliasing {
    if commands == [] then [] else Entries(Names(commands[0]), commands[0]) + TableOf(commands[1..])
  }

  /** The alias table, in the order of the source. */
  function Table(): Aliasing {
    TableOf([Login, Logout, Regin, AskForFriend, ChoseTalker, ShowFriends, ShowRequests, AccRequest, ShowMySelf])
  }

  function LookUp(table: Aliasing, alias: string): (r: Option<Command>)
    ensures r.Some? ==> (alias, r.value) in table
    ensures r.None? ==> forall i :: 0 <= i < |table| ==> table[i].0 != alias
  {
    if table == [] then None
    else if table[0].0 == alias then Some(table[0].1)
    else LookUp(table[1..], alias)
  }

  /** What the parser reads of the rest of the client. */
  datatype Player = Player(loggedIn: bool, id: int, requests: seq<Msg>)

  /** Name and password, if the text is two parts of acceptable length. */
  function NameAndPwd(input: string): Option<(string, string)> {
    var res := Split(input, '|');
    if |res| <= 1 || |res| > 2 || |res[0]| > NAME_MAX_LEN - 1 || |res[1]| > PASSWORD_MAX_LEN - 1 then None
    else Some((res[0], res[1]))
  }

  /** `handleInputOfLogin` and `handleInputOfRegin`; `memory` is what the unset buffer holds. */
  function Credential(msgType: int, input: string, memory: Buffer): Option<Msg> {
    match NameAndPwd(input)
    case None => None
    case Some(np) =>
      Some(WithNamePasswd(Msg(msgType, MAX_TRANS_MSG_LEN, -1, -1, -1, memory), np.0, np.1))
  }

  function Friend(input: string, p: Player, memory: Buffer): Option<Msg> {
    if !p.loggedIn || |input| >= NAME_MAX_LEN then None
    else Some(WithMsg(Msg(MSG_ASK_FOR_FRIEND, MAX_TRANS_MSG_LEN, -1, -1, -1, memory), input))
  }

  function RunInput(command: Command, input: string, p: Player, memory: Buffer): Option<Msg> {
    match command
    case Login => Credential(MSG_LOGIN, input, memory)
    case Regin => Credential(MSG_REG, input, memory)
    case Logout => if p.loggedIn then Some(Msg(MSG_LOGOUT, TWO32 - 1, -1, -1, -1, memory)) else None
    case AskForFriend => Friend(input, p, memory)
    case ChoseTalker => Friend(input, p, memory)
    case AccRequest =>
      var index := Atoi(input);
      if p.loggedIn && 0 <= index < |p.requests|
      then Some(Msg(MSG_ASK_FOR_FRIEND_ACCEPT, MAX_TRANS_MSG_LEN, p.id, p.requests[index].id, -1, memory))
      else None
    case _ => None
  }

  /** `getMsgFromInput`, for any alias table; None is the null pointer. */
  function Parse(table: Aliasing, input: string, p: Player, memory: Buffer): Option<Msg> {
    var res := Split(input, '@');
    if |res| > 2 then None
    else if |res| == 1 then
      if p.loggedIn then Some(WithMsg(Msg(MSG_TALK, 1, 1, 1, 1, memory), input)) else None
    else
      match LookUp(table, res[0])
      case None => None
      case Some(command) => RunInput(command, res[1], p, memory)
  }

  // ----- the language

  /** Splitting into two parts is exact. */
  lemma SplitsInTwo(input: string, d: char, a: string, b: string)
    ensures Split(input, d) == [a, b] <==> input == a + [d] + b && d !in a && d !in b
  {
    if Split(input, d) == [a, b] {
      JoinSplit(input, d);
      assert a in [a, b] && b in [a, b];
      assert Join([a, b], d) == a + [d] + b;
    }
    if input == a + [d] + b && d !in a && d !in b {
      SplitCons(a, d, b);
      assert UpTo(b, d) == b;
    }
  }

  lemma NameAndPwdExact(input: string, name: string, pwd: string)
    ensures NameAndPwd(input) == Some((name, pwd)) <==>
      input == name + ['|'] + pwd && '|' !in name && '|' !in pwd && |name| <= 23 && |pwd| <= 39
  {
    SplitsInTwo(input, '|', name, pwd);
    var res := Split(input, '|');
    if |res| == 2 {
      assert res == [res[0], res[1]];
    }
  }

  /** A line that says: this command, this name, this password. */
  ghost predicate Says(table: Aliasing, input: string, command: Command, name: string, pwd: string) {
    exists alias ::
      && LookUp(table, alias) == Some(command) && '@' !in alias
      && input == alias + ['@'] + (name + ['|'] + pwd)
      && '@' !in name && '|' !in name && '@' !in pwd && '|' !in pwd
      && |name| <= 23 && |pwd| <= 39
  }

  function TypeOf(command: Command): int
    requires command == Login || command == Regin
  {
    if command == Login then MSG_LOGIN else MSG_REG
  }

  lemma SaysParses(table: Aliasing, input: string, command: Command, name: string, pwd: string,
                   p: Player, memory: Buffer)
    requires command == Login || command == Regin
    requires Says(table, input, command, name, pwd)
    ensures Parse(table, input, p, memory)
         == Some(WithNamePasswd(Msg(TypeOf(command), MAX_TRANS_MSG_LEN, -1, -1, -1, memory), name, pwd))
  {
    hide Split, LookUp, WithNamePasswd;
    var alias :|
      && LookUp(table, alias) == Some(command) && '@' !in alias
      && input == alias + ['@'] + (name + ['|'] + pwd)
      && '@' !in name && '|' !in name && '@' !in pwd && '|' !in pwd
      && |name| <= 23 && |pwd| <= 39;
    SplitsInTwo(input, '@', alias, name + ['|'] + pwd);
    NameAndPwdExact(name + ['|'] + pwd, name, pwd);
  }

  lemma ParsesSays(table: Aliasing, input: string, command: Command, p: Player, memory: Buffer)
    returns (name: string, pwd: string)
    requires command == Login || command == Regin
    requires Parse(table, input, p, memory).Some? && Parse(table, input, p, memory).value.msgType == TypeOf(command)
    ensures Says(table, input, command, name, pwd)
  {
    hide Split, LookUp;
    var res := Split(input, '@');
    assert LookUp(table, res[0]) == Some(command);
    SplitsInTwo(input, '@', res[0], res[1]);
    assert res == [res[0], res[1]];
    var np := NameAndPwd(res[1]);
    name, pwd := np.value.0, np.value.1;
    NameAndPwdExact(res[1], name, pwd);
  }

  /** Login and registration lines are parsed exactly: the result is a message of that type iff
      the line is a listed alias, `@`, a name, `|` and a password, the name and the password
      free of both delimiters and short enough; and then the two are set in the buffer. */
  lemma CredentialLinesAreExact(table: Aliasing, input: string, command: Command, p: Player, memory: Buffer)
    requires command == Login || command == Regin
    ensures Parse(table, input, p, memory).Some? && Parse(table, input, p, memory).value.msgType == TypeOf(command)
       <==> exists name, pwd :: Says(table, input, command, name, pwd)
    ensures forall name, pwd :: Says(table, input, command, name, pwd) ==>
      Parse(table, input, p, memory)
        == Some(WithNamePasswd(Msg(TypeOf(command), MAX_TRANS_MSG_LEN, -1, -1, -1, memory), name, pwd))
  {
    hide Parse, Says;
    forall name, pwd | Says(table, input, command, name, pwd)
      ensures Parse(table, input, p, memory)
        == Some(WithNamePasswd(Msg(TypeOf(command), MAX_TRANS_MSG_LEN, -1, -1, -1, memory), name, pwd))
    {
      SaysParses(table, input, command, name, pwd, p, memory);
    }
    if Parse(table, input, p, memory).Some? && Parse(table, input, p, memory).value.msgType == TypeOf(command) {
      var name, pwd := ParsesSays(table, input, command, p, memory);
    }
  }

  lemma {:induction false} LookUpInEntries(names: seq<string>, command: Command, rest: Aliasing, alias: string)
    ensures LookUp(Entries(names, command) + rest, alias)
         == if alias in names then Some(command) else LookUp(rest, alias)
    decreases |names|
  {
    if names == [] {
      assert Entries(names, command) + rest == rest;
    } else {
      assert (Entries(names, command) + rest)[1..] == Entries(names[1..], command) + rest;
      LookUpInEntries(names[1..], command, rest, alias);
    }
  }

  /** A command that the spelling of an alias leaves possible: no two commands share an alias. */
  function Spelt(alias: string): Command {
    if |alias| < 2 then ShowMySelf
    else if alias[0] in "lL" then
      if alias[1] == 'i' || (|alias| > 3 && alias[3] in "iI") then Login else Logout
    else if alias[0] in "rR" then Regin
    else if alias[0] in "cC" then ChoseTalker
    else if alias[0] in "aA" then (if alias[1] == 'd' then AskForFriend else AccRequest)
    else if alias[0] in "sS" then
      if alias[1] == 'f' || (|alias| > 4 && alias[4] in "fF") then ShowFriends else ShowRequests
    else ShowMySelf
  }

  lemma NamesAreSpelt(command: Command, alias: string)
    requires alias in Names(command)
    ensures Spelt(alias) == command
  {
    match command
    case ShowFriends => ShownAreSpelt(command, alias);
    case ShowRequests => ShownAreSpelt(command, alias);
    case AccRequest => AcceptancesAreSpelt(alias);
    case _ =>
  }

  lemma ShownAreSpelt(command: Command, alias: string)
    requires command in {ShowFriends, ShowRequests} && alias in Names(command)
    ensures Spelt(alias) == command
  {
    match command
    case ShowFriends =>
    case ShowRequests =>
  }

  lemma AcceptancesAreSpelt(alias: string)
    requires alias in Names(AccRequest)
    ensures Spelt(alias) == AccRequest
  {
  }

  lemma {:induction false} LookUpInTable(commands: seq<Command>, alias: string, command: Command)
    ensures LookUp(TableOf(commands), alias) == Some(command) <==> command in commands && alias in Names(command)
  {
    hide Names, Spelt, Entries, LookUp;
    if commands == [] {
      LookUpNothing(alias);
    } else {
      var first := commands[0];
      LookUpInEntries(Names(first), first, TableOf(commands[1..]), alias);
      LookUpInTable(commands[1..], alias, command);
      if alias in Names(first) { NamesAreSpelt(first, alias); }
      if alias in Names(command) { NamesAreSpelt(command, alias); }
    }
  }

  lemma LookUpNothing(alias: string)
    ensures LookUp([], alias) == None
  {
  }

  /** An alias leads to a command exactly when it is one of that command's names. */
  lemma NamesAreAliases(alias: string, command: Command)
    ensures LookUp(Table(), alias) == Some(command) <==> alias in Names(command)
  {
    hide LookUp, Names, TableOf;
    var all := [Login, Logout, Regin, AskForFriend, ChoseTalker, ShowFriends, ShowRequests, AccRequest, ShowMySelf];
    LookUpInTable(all, alias, command);
    AllCommands(command);
  }

  /** The names, command by command. */
  lemma Aliases(alias: string)
    ensures LookUp(Table(), alias) == Some(Login) <==> alias in ["li", "login", "Login", "LOGIN"]
    ensures LookUp(Table(), alias) == Some(Logout) <==> alias in ["lo", "logout", "Logout", "LOGOUT"]
    ensures LookUp(Table(), alias) == Some(Regin) <==> alias in ["rg", "regin", "Regin", "REGIN"]
    ensures LookUp(Table(), alias) == Some(AskForFriend) <==> alias in ["ad", "add", "Add"]
    ensures LookUp(Table(), alias) == Some(ChoseTalker) <==> alias in ["ch", "chose", "Chose", "CHOSE"]
    ensures LookUp(Table(), alias) == Some(ShowFriends)
       <==> alias in ["sf", "showfriends", "showFriends", "ShowFriends"]
    ensures LookUp(Table(), alias) == Some(ShowRequests)
       <==> alias in ["sr", "showrequests", "showRequests", "ShowRequests", "SHOWREQUESTS"]
    ensures LookUp(Table(), alias) == Some(AccRequest)
       <==> alias in ["ar", "acceptrequest", "acceptRequest", "Acceptrequest", "ACCEPTREQUEST"]
    ensures LookUp(Table(), alias) == Some(ShowMySelf) <==> alias in ["Me", "me"]
  {
    hide LookUp, Table;
    NamesAreAliases(alias, Login);
    NamesAreAliases(alias, Logout);
    NamesAreAliases(alias, Regin);
    NamesAreAliases(alias, AskForFriend);
    NamesAreAliases(alias, ChoseTalker);
    NamesAreAliases(alias, ShowFriends);
    NamesAreAliases(alias, ShowRequests);
    NamesAreAliases(alias, AccRequest);
    NamesAreAliases(alias, ShowMySelf);
  }

  lemma AllCommands(command: Command)
    ensures command
         in [Login, Logout, Regin, AskForFriend, ChoseTalker, ShowFriends, ShowRequests, AccRequest, ShowMySelf]
  {
  }

  /** For instance. */
  lemma SomeoneLogsIn()
    ensures Says(Table(), "login@bob|secret", Login, "bob", "secret")
  {
    hide Table, LookUp;
    var alias := "login";
    assert alias in Names(Login);
    NamesAreAliases(alias, Login);
    assert "login@bob|secret" == alias + ['@'] + ("bob" + ['|'] + "secret");
  }

  /** The getters return what was typed, printed as a format: exactly what was typed if and only
      if that is a defined format without a percent sign. */
  lemma TypedCredentialsAreRead(table: Aliasing, input: string, command: Command, name: string, pwd: string,
                                p: Player, memory: Buffer)
    requires command == Login || command == Regin
    requires Says(table, input, command, name, pwd) && '\0' !in input
    ensures match Parse(table, input, p, memory)
      case Some(m) =>
        && GetName(m) == Printed(name) && GetPasswd(m) == Printed(pwd)
        && (Defined(name) && GetName(m) == name <==> '%' !in name)
        && (Defined(pwd) && GetPasswd(m) == pwd <==> '%' !in pwd)
      case None => false
  {
    hide Parse, Says, Printed, Defined;
    SaysParses(table, input, command, name, pwd, p, memory);
    SaidTextIsPlain(table, input, command, name, pwd);
    PrintedAsGiven(name);
    PrintedAsGiven(pwd);
    SetBoth(Msg(TypeOf(command), MAX_TRANS_MSG_LEN, -1, -1, -1, memory), name, pwd);
  }

  lemma SaidTextIsPlain(table: Aliasing, input: string, command: Command, name: string, pwd: string)
    requires Says(table, input, command, name, pwd) && '\0' !in input
    ensures CStr(name) == name && CStr(pwd) == pwd && |name| <= 23 && |pwd| <= 39
  {
    hide LookUp;
    assert forall i :: 0 <= i < |name| ==> name[i] in input;
    assert forall i :: 0 <= i < |pwd| ==> pwd[i] in input;
  }

  /** A message of these fields that holds the text, as far as the buffer takes it. */
  predicate Writes(r: Msg, fields: Msg, text: string) {
    && r.(text := fields.text) == fields
    && (if |CStr(text)| < MAX_TRANS_MSG_LEN then Holds(r.text, CStr(text)) && GetName(r) == CStr(text)
        else r.text == fields.text)
  }

  lemma WithMsgWrites(fields: Msg, text: string)
    ensures Writes(WithMsg(fields, text), fields, text)
  {
    hide WithMsg, Holds, GetName;
    MessageIsHeld(fields, text);
    SettersKeepFields(fields, Message(text));
  }

  /** A line without `@` is talk, once somebody is logged in; what is read of it is the line. */
  lemma TalkLines(table: Aliasing, input: string, p: Player, memory: Buffer)
    requires '@' !in input
    ensures match Parse(table, input, p, memory)
      case None => !p.loggedIn
      case Some(r) => p.loggedIn && Writes(r, Msg(MSG_TALK, 1, 1, 1, 1, memory), input)
  {
    hide Writes, WithMsg;
    SplitWhole(input, '@');
    WithMsgWrites(Msg(MSG_TALK, 1, 1, 1, 1, memory), input);
  }

  /** A friend request or the choice of a talker, once somebody is logged in, is a request for the
      name in the line, if that is short enough. */
  lemma FriendLines(table: Aliasing, alias: string, name: string, p: Player, memory: Buffer)
    requires '@' !in alias && '@' !in name && LookUp(table, alias) in {Some(AskForFriend), Some(ChoseTalker)}
    ensures match Parse(table, alias + ['@'] + name, p, memory)
      case None => !p.loggedIn || |name| >= 24
      case Some(r) =>
        && p.loggedIn && |name| < 24
        && Writes(r, Msg(MSG_ASK_FOR_FRIEND, 64, -1, -1, -1, memory), name) && GetName(r) == CStr(name)
  {
    hide WithMsg, Split, LookUp, Holds, GetName;
    SplitsInTwo(alias + ['@'] + name, '@', alias, name);
    WithMsgWrites(Msg(MSG_ASK_FOR_FRIEND, 64, -1, -1, -1, memory), name);
  }

  /** An accepted request is the one at the number in the line, and the acceptance goes from the
      player to its sender; any other number accepts nothing. */
  lemma AcceptanceLines(table: Aliasing, alias: string, index: int, p: Player, memory: Buffer)
    requires '@' !in alias && LookUp(table, alias) == Some(AccRequest)
    ensures Parse(table, alias + ['@'] + ToString(index), p, memory)
         == if p.loggedIn && 0 <= index < |p.requests|
            then Some(Msg(MSG_ASK_FOR_FRIEND_ACCEPT, 64, p.id, p.requests[index].id, -1, memory)) else None
  {
    hide Split, LookUp, ToString, Atoi;
    NoMarkInNumber(index);
    SplitsInTwo(alias + ['@'] + ToString(index), '@', alias, ToString(index));
    AtoiToString(index);
  }

  lemma NoMarkInNumber(n: int)
    ensures '@' !in ToString(n)
  {
    var d := Digits(if n < 0 then -n else n);
    assert forall i :: 0 <= i < |d| ==> IsDigit(d[i]);
  }

  /** What the other lines are: a logout, nothing for a command that only shows something, nothing
      for an unknown alias, and nothing when the line holds a second `@`. */
  lemma OtherLines(table: Aliasing, alias: string, rest: string, p: Player, memory: Buffer)
    requires '@' !in alias
    ensures var r := Parse(table, alias + ['@'] + rest, p, memory);
      var c := LookUp(table, alias);
      && ('@' in rest || c in {None, Some(ShowFriends), Some(ShowRequests), Some(ShowMySelf)} ==> r == None)
      && ('@' !in rest && c == Some(Logout) ==>
            r == if p.loggedIn then Some(Msg(MSG_LOGOUT, 0xFFFF_FFFF, -1, -1, -1, memory)) else None)
  {
    hide LookUp, RunInput;
    var line := alias + ['@'] + rest;
    SplitCons(alias, '@', rest);
    if '@' in rest {
      MarksSplit(rest);
    } else {
      SplitWhole(rest, '@');
      ShowsNothing(rest, p, memory);
    }
  }

  lemma MarksSplit(s: string)
    requires '@' in s
    ensures |Split(s, '@')| >= 2
  {
    JoinSplit(s, '@');
    assert Split(s, '@')[0] in Split(s, '@');
  }

  lemma ShowsNothing(rest: string, p: Player, memory: Buffer)
    ensures RunInput(ShowFriends, rest, p, memory) == None
    ensures RunInput(ShowRequests, rest, p, memory) == None
    ensures RunInput(ShowMySelf, rest, p, memory) == None
    ensures RunInput(Logout, rest, p, memory)
         == if p.loggedIn then Some(Msg(MSG_LOGOUT, 0xFFFF_FFFF, -1, -1, -1, memory)) else None
  {
  }

  /** No line parses to the sentinel. */
  lemma NoSentinelFromInput(table: Aliasing, input: string, p: Player, memory: Buffer)
    ensures Parse(table, input, p, memory).Some? ==>
      Parse(table, input, p, memory).value.msgType in
        {MSG_TALK, MSG_LOGIN, MSG_REG, MSG_LOGOUT, MSG_ASK_FOR_FRIEND, MSG_ASK_FOR_FRIEND_ACCEPT}
  {
    hide Split, LookUp;
  }

  // ----- the functions of the source, building message objects

  /** The object returned is the message, or null for none. */
  ghost predicate Built(obj: TransObj?, m: Option<Msg>)
    reads obj, if obj == null then {} else {obj.msg}
  {
    if obj == null then m.None? else obj.Valid() && m == Some(obj.Value())
  }

  /** A name and a password end up as formats of `snprintf`, which must be defined. */
  predicate CredentialSafe(text: string) {
    match NameAndPwd(text)
    case None => true
    case Some(np) => Defined(CStr(np.0)) && Defined(CStr(np.1))
  }

  /** Only logins and registrations print their text as a format. */
  predicate FormatSafe(input: string) {
    var res := Split(input, '@');
    |res| == 2 && LookUp(Table(), res[0]) in {Some(Login), Some(Regin)} ==> CredentialSafe(res[1])
  }

  method SplitInputStr2NameAndPwd(input: string) returns (ok: bool, res: seq<string>)
    ensures ok <==> NameAndPwd(input).Some?
    ensures ok ==> |res| == 2 && NameAndPwd(input) == Some((res[0], res[1]))
  {
    res := Split(input, '|');
    if |res| <= 1 || |res| > 2 || |res[0]| > NAME_MAX_LEN - 1 || |res[1]| > PASSWORD_MAX_LEN - 1 {
      return false, res;
    }
    return true, res;
  }

  method HandleInputOfCredential(msgType: int, input: string, memory: Buffer) returns (obj: TransObj?)
    requires CredentialSafe(input)
    ensures obj != null ==> fresh(obj) && fresh(obj.msg)
    ensures Built(obj, Credential(msgType, input, memory))
  {
    var ok, res := SplitInputStr2NameAndPwd(input);
    if !ok {
      return null;
    }
    var o := new TransObj.Unset(-1, -1, msgType, MAX_TRANS_MSG_LEN, -1, memory);
    var set_ := o.SetNamePasswd(res[0], res[1]);
    if set_ {
      return o;
    }
    return null;
  }

  method HandleInputOfFriend(input: string, p: Player, memory: Buffer) returns (obj: TransObj?)
    ensures obj != null ==> fresh(obj) && fresh(obj.msg)
    ensures Built(obj, Friend(input, p, memory))
  {
    if !p.loggedIn || |input| >= NAME_MAX_LEN {
      return null;
    }
    var o := new TransObj.Unset(-1, -1, MSG_ASK_FOR_FRIEND, MAX_TRANS_MSG_LEN, -1, memory);
    var ok := o.SetMsg(input);
    return o;
  }

  method HandleInputOfAccRequest(input: string, p: Player, memory: Buffer) returns (obj: TransObj?)
    ensures obj != null ==> fresh(obj) && fresh(obj.msg)
    ensures Built(obj, RunInput(AccRequest, input, p, memory))
  {
    if !p.loggedIn {
      return null;
    }
    var index := Atoi(input);
    if 0 <= index < |p.requests| {
      var recvId := p.requests[index].id;
      obj := new TransObj.Unset(p.id, recvId, MSG_ASK_FOR_FRIEND_ACCEPT, MAX_TRANS_MSG_LEN, -1, memory);
      return;
    }
    return null;
  }

  method HandleInputOfLogout(p: Player, memory: Buffer) returns (obj: TransObj?)
    ensures obj != null ==> fresh(obj) && fresh(obj.msg)
    ensures Built(obj, RunInput(Logout, "", p, memory))
  {
    if !p.loggedIn {
      return null;
    }
    obj := new TransObj.Unset(-1, -1, MSG_LOGOUT, TWO32 - 1, -1, memory);
  }

  /** The loop over the alias table. */
  method FindCommand(table: Aliasing, cmdType: string) returns (c: Option<Command>)
    ensures c == LookUp(table, cmdType)
  {
    for loop := 0 to |table|
      invariant LookUp(table, cmdType) == LookUp(table[loop..], cmdType)
    {
      if cmdType == table[loop].0 {
        return Some(table[loop].1);
      }
    }
    return None;
  }

  method GetMsgFromInput(input: string, p: Player, memory: Buffer) returns (obj: TransObj?)
    requires FormatSafe(input)
    ensures obj != null ==> fresh(obj) && fresh(obj.msg)
    ensures Built(obj, Parse(Table(), input, p, memory))
  {
    hide Split, Table, Credential, Friend, LookUp, CredentialSafe;
    var res := Split(input, '@');
    if |res| > 2 {
      return null;
    }
    if |res| == 1 {
      if !p.loggedIn {
        return null;
      }
      var talk := new TransObj.Unset(1, 1, MSG_TALK, 1, 1, memory);
      var ok := talk.SetMsg(input);
      return talk;
    }
    var command := FindCommand(Table(), res[0]);
    match command {
      case Some(Login) => obj := HandleInputOfCredential(MSG_LOGIN, res[1], memory);
      case Some(Regin) => obj := HandleInputOfCredential(MSG_REG, res[1], memory);
      case Some(AskForFriend) => obj := HandleInputOfFriend(res[1], p, memory);
      case Some(ChoseTalker) => obj := HandleInputOfFriend(res[1], p, memory);
      case Some(AccRequest) => obj := HandleInputOfAccRequest(res[1], p, memory);
      case Some(Logout) => obj := HandleInputOfLogout(p, memory);
      case _ => obj := null;
    }
  }
}
