/** The registry of sessions, kept in Redis under the key "userSession" and one hash for each
    id, and reached only through rendered commands and decoded replies. */
module ComManger {
  import opened Wrappers
  import opened Text
  import opened RedisPool
  import opened SeqAbleObj

  const SESSIONS := "userSession"

  function SessionPairs(name: string, fd: int): seq<(string, string)> {
    [("name", name), ("fd", ToString(fd))]
  }

  function AddSession(ks: Keyspace, id: int, name: string, fd: int, up1: bool, up2: bool): (Keyspace, bool) {
    var (ks1, added) := ExecuteCmd(ks, CommandText("SADD", [SESSIONS, ToString(id)]), up1);
    if added.None? then (ks1, false)
    else
      var (ks2, stored) := ExecuteCmd(ks1, Printed(HmsetText(ToString(id), SessionPairs(name, fd))), up2);
      (ks2, stored.Some?)
  }

  function IsOnline(ks: Keyspace, id: int, up: bool): bool {
    ExecuteCmd(ks, CommandText("SISMEMBER", [SESSIONS, ToString(id)]), up).1 == Some("1")
  }

  function RemoveSession(ks: Keyspace, id: int, up1: bool, up2: bool): (Keyspace, bool) {
    var (ks1, removed) := ExecuteCmd(ks, CommandText("SREM", [SESSIONS, ToString(id)]), up1);
    if removed.None? then (ks1, false)
    else
      var (ks2, deleted) := ExecuteCmd(ks1, CommandText("DEL", [ToString(id)]), up2);
      (ks2, deleted.Some?)
  }

  function TalkerField(ks: Keyspace, id: int, field: string, up: bool): Option<string> {
    ExecuteCmd(ks, CommandText("hget", [ToString(id), field]), up).1
  }

  function TalkerFd(ks: Keyspace, id: int, up: bool): int {
    match TalkerField(ks, id, "fd", up)
    case Some(s) => Atoi(s)
    case None => -1
  }

  // ----- what the keyspace means

  /** The session key holds a set, every other key a hash of words. */
  ghost predicate WellTyped(ks: Keyspace) {
    && (SESSIONS in ks ==> ks[SESSIONS].Set?)
    && (forall k :: k in ks && k != SESSIONS ==> ks[k].Hash?)
    && (forall k, f :: k in ks && k != SESSIONS && f in ks[k].fields ==> IsWord(ks[k].fields[f]))
  }

  ghost function Members(ks: Keyspace): set<string>
    requires WellTyped(ks)
  {
    if SESSIONS in ks then ks[SESSIONS].members else {}
  }

  /** The two keyspaces agree on a key. */
  predicate SameAt(ks: Keyspace, ks': Keyspace, k: string) {
    (k in ks <==> k in ks') && (k in ks ==> ks[k] == ks'[k])
  }

  /** A session whose rendered command is tokenised back into what was meant. */
  predicate Storable(id: int, name: string, fd: int) {
    IsWord(name) && |Printed(HmsetText(ToString(id), SessionPairs(name, fd)))| <= 99
  }

  lemma IdIsNoSessionKey(id: int)
    ensures ToString(id) != SESSIONS && IsWord(ToString(id)) && IsWord(SESSIONS)
    ensures '%' !in ToString(id)
  {
    ToStringWord(id);
    ToStringPlain(id);
    assert SESSIONS[0] == 'u';
  }

  lemma ToStringPlain(n: int)
    ensures '%' !in ToString(n)
  {
    var d := Digits(if n < 0 then -n else n);
    assert forall i :: 0 <= i < |d| ==> IsDigit(d[i]);
  }

  lemma CommandRuns(ks: Keyspace, command: string, id: int, field: string)
    requires IsInt32(id) && IsWord(command) && |command| <= 10 && IsWord(field) && |field| <= 11
    requires '%' !in command && '%' !in field
    ensures ExecuteCmd(ks, CommandText(command, [field, ToString(id)]), true).0
         == RunCommand(ks, [command, field, ToString(id)]).0
    ensures ExecuteCmd(ks, CommandText(command, [field, ToString(id)]), true).1
         == Some(Decode(RunCommand(ks, [command, field, ToString(id)]).1))
    ensures ExecuteCmd(ks, CommandText(command, [ToString(id), field]), true).1
         == Some(Decode(RunCommand(ks, [command, ToString(id), field]).1))
  {
    hide RunCommand, Decode, Arguments;
    ToStringWord(id);
    ToStringPlain(id);
    ToStringLength(id);
    TwoArguments(command, field, ToString(id));
    TwoArguments(command, ToString(id), field);
  }

  lemma TwoArguments(command: string, a: string, b: string)
    requires IsWord(command) && IsWord(a) && IsWord(b) && |command| + |a| + |b| <= 97
    requires '%' !in command && '%' !in a && '%' !in b
    ensures Arguments(CommandText(command, [a, b])) == [command, a, b]
  {
    hide Arguments;
    JoinTwo(a, b);
    CommandRoundTrip(command, [a, b]);
    assert [command] + [a, b] == [command, a, b];
    PlainWordsPrint([command, a, b]);
  }

  lemma JoinTwo(a: string, b: string)
    ensures Join([a, b], ' ') == a + [' '] + b
  {
    assert [a, b][1..] == [b];
  }

  // ----- effects of the operations, when Redis answers

  lemma {:induction false} UpdateWords(fields: map<string, string>, args: seq<string>)
    requires |args| % 2 == 0
    requires forall w :: w in args ==> IsWord(w)
    requires forall f :: f in fields ==> IsWord(fields[f])
    ensures forall f :: f in Update(fields, args) ==> IsWord(Update(fields, args)[f])
    decreases |args|
  {
    if args != [] {
      assert args[1] in args;
      UpdateWords(fields[args[0] := args[1]], args[2..]);
    }
  }

  /** HMSET with any words touches one hash and leaves a well-typed keyspace. */
  lemma HmsetIsLocal(ks: Keyspace, key: string, args: seq<string>)
    requires WellTyped(ks) && key != SESSIONS && forall w :: w in args ==> IsWord(w)
    ensures var ks' := RunCommand(ks, ["HMSET", key] + args).0;
      WellTyped(ks') && forall k :: k != key ==> SameAt(ks, ks', k)
  {
    RunHmset(ks, key, args);
    if |args| % 2 == 0 {
      UpdateWords(if key in ks then ks[key].fields else map[], args);
    }
  }

  /** The rendered HMSET of a session acts on the hash of that id alone, whatever the name. */
  lemma SessionHashIsLocal(ks: Keyspace, id: int, name: string, fd: int)
    requires WellTyped(ks) && IsInt32(id)
    ensures var ks' := ExecuteCmd(ks, Printed(HmsetText(ToString(id), SessionPairs(name, fd))), true).0;
      WellTyped(ks') && forall k :: k != ToString(id) ==> SameAt(ks, ks', k)
  {
    var (key, pairs) := (ToString(id), SessionPairs(name, fd));
    IdIsNoSessionKey(id);
    ToStringLength(id);
    var rest := PairsText(pairs)[1..];
    assert HmsetText(key, pairs) == "HMSET" + " " + key + " " + rest;
    var args := HmsetKeySurvives(key, rest);
    HmsetIsLocal(ks, key, args);
  }

  ghost predicate HasHash(ks: Keyspace, id: int, name: string, fd: int) {
    && ToString(id) in ks && ks[ToString(id)].Hash?
    && "name" in ks[ToString(id)].fields && ks[ToString(id)].fields["name"] == name
    && "fd" in ks[ToString(id)].fields && ks[ToString(id)].fields["fd"] == ToString(fd)
  }

  /** A storable session is stored as given. */
  lemma SessionHashIsStored(ks: Keyspace, id: int, name: string, fd: int)
    requires WellTyped(ks) && Storable(id, name, fd)
    ensures var ks' := ExecuteCmd(ks, Printed(HmsetText(ToString(id), SessionPairs(name, fd))), true).0;
      HasHash(ks', id, InRedis(name), fd)
  {
    var (key, pairs) := (ToString(id), SessionPairs(name, fd));
    IdIsNoSessionKey(id);
    ToStringWord(fd);
    ToStringPlain(fd);
    TwoPairs(("name", name), ("fd", ToString(fd)));
    HmsetRoundTrip(key, pairs);
    hide HmsetText, Arguments, Printed, PrintedAll, Flatten, ExecuteCmd;
    SessionArguments(key, name, ToString(fd));
    StoresPairs(ks, key, Printed(HmsetText(key, pairs)), InRedis(name), ToString(fd));
  }

  lemma StoresPairs(ks: Keyspace, key: string, text: string, name: string, fd: string)
    requires Arguments(text) == ["HMSET", key] + ["name", name, "fd", fd]
    requires key in ks ==> ks[key].Hash?
    ensures var ks' := ExecuteCmd(ks, text, true).0;
      && key in ks' && ks'[key].Hash?
      && "name" in ks'[key].fields && ks'[key].fields["name"] == name
      && "fd" in ks'[key].fields && ks'[key].fields["fd"] == fd
  {
    hide Arguments, RunCommand;
    RunHmset(ks, key, ["name", name, "fd", fd]);
    UpdateTwo(if key in ks then ks[key].fields else map[], "name", name, "fd", fd);
  }

  lemma SessionArguments(key: string, name: string, fd: string)
    requires '%' !in key && '%' !in fd
    ensures PrintedAll(PrintedAll(["HMSET", key] + ["name", name, "fd", fd]))
         == ["HMSET", key] + ["name", InRedis(name), "fd", fd]
  {
    hide Printed, PrintedAll;
    PlainTexts(key, fd);
    PrintedTexts("HMSET", key, "name", name, "fd", fd);
    PrintedTexts("HMSET", key, "name", Printed(name), "fd", fd);
  }

  lemma PrintedCons(word: string, words: seq<string>)
    ensures PrintedAll([word] + words) == [Printed(word)] + PrintedAll(words)
  {
    hide Printed;
    assert ([word] + words)[1..] == words;
  }

  lemma PrintedTwo(a: string, b: string, words: seq<string>)
    ensures PrintedAll([a, b] + words) == [Printed(a), Printed(b)] + PrintedAll(words)
  {
    hide Printed, PrintedAll;
    PrintedCons(b, words);
    PrintedCons(a, [b] + words);
    assert [a, b] + words == [a] + ([b] + words);
    assert [Printed(a), Printed(b)] + PrintedAll(words) == [Printed(a)] + ([Printed(b)] + PrintedAll(words));
  }

  lemma PrintedTail(nameField: string, name: string, fdField: string, fd: string)
    requires Printed(nameField) == nameField && Printed(fdField) == fdField && Printed(fd) == fd
    ensures PrintedAll([nameField, name, fdField, fd]) == [nameField, Printed(name), fdField, fd]
  {
    NothingIsPrinted();
    hide Printed, PrintedAll;
    var last := [fdField, fd];
    PrintedTwo(fdField, fd, []);
    TwoAndNone(fdField, fd);
    assert PrintedAll(last) == last;
    PrintedTwo(nameField, name, last);
    TwoAndTwo(nameField, name, fdField, fd);
    TwoAndTwo(nameField, Printed(name), fdField, fd);
  }

  lemma PrintedTexts(command: string, key: string, nameField: string, name: string, fdField: string, fd: string)
    requires Printed(command) == command && Printed(key) == key && Printed(nameField) == nameField
    requires Printed(fdField) == fdField && Printed(fd) == fd
    ensures PrintedAll([command, key] + [nameField, name, fdField, fd])
         == [command, key] + [nameField, Printed(name), fdField, fd]
  {
    hide Printed, PrintedAll;
    var tail := [nameField, name, fdField, fd];
    PrintedTail(nameField, name, fdField, fd);
    PrintedTwo(command, key, tail);
  }

  lemma TwoAndNone<T>(a: T, b: T)
    ensures [a, b] + [] == [a, b]
  {
  }

  lemma TwoAndTwo<T>(a: T, b: T, c: T, d: T)
    ensures [a, b] + [c, d] == [a, b, c, d]
  {
  }

  lemma NothingIsPrinted()
    ensures PrintedAll([]) == []
  {
  }

  lemma PlainTexts(key: string, fd: string)
    requires '%' !in key && '%' !in fd
    ensures Printed("HMSET") == "HMSET" && Printed("name") == "name" && Printed("fd") == "fd"
    ensures Printed(key) == key && Printed(fd) == fd
  {
    PrintedAsGiven("HMSET");
    PrintedAsGiven("name");
    PrintedAsGiven("fd");
    PrintedAsGiven(key);
    PrintedAsGiven(fd);
  }

  lemma SetCommandsRun(ks: Keyspace, id: int)
    requires IsInt32(id)
    ensures ExecuteCmd(ks, CommandText("SADD", [SESSIONS, ToString(id)]), true).0
         == Sadd(ks, SESSIONS, {ToString(id)}).0
    ensures ExecuteCmd(ks, CommandText("SREM", [SESSIONS, ToString(id)]), true).0
         == Srem(ks, SESSIONS, {ToString(id)}).0
  {
    IdIsNoSessionKey(id);
    CommandRuns(ks, "SADD", id, SESSIONS);
    CommandRuns(ks, "SREM", id, SESSIONS);
    RunSetCommands(ks, SESSIONS, ToString(id));
  }

  lemma SaddEffect(ks: Keyspace, s: string)
    requires WellTyped(ks)
    ensures var ks' := Sadd(ks, SESSIONS, {s}).0;
      && WellTyped(ks') && Members(ks') == Members(ks) + {s}
      && forall k :: k != SESSIONS ==> SameAt(ks, ks', k)
  {
    SetChanges(ks, SESSIONS, (if SESSIONS in ks then ks[SESSIONS].members else {}) + {s});
  }

  lemma SremEffect(ks: Keyspace, s: string)
    requires WellTyped(ks)
    ensures var ks' := Srem(ks, SESSIONS, {s}).0;
      && WellTyped(ks') && Members(ks') == Members(ks) - {s}
      && forall k :: k != SESSIONS ==> SameAt(ks, ks', k)
  {
    SetChanges(ks, SESSIONS, (if SESSIONS in ks then ks[SESSIONS].members else {}) - {s});
  }

  /** Replacing or removing the online set leaves the rest as it was. */
  lemma SetChanges(ks: Keyspace, sessions: string, members: set<string>)
    requires WellTyped(ks) && sessions == SESSIONS
    ensures var ks' := ks[sessions := Set(members)];
      WellTyped(ks') && Members(ks') == members && forall k :: k != sessions ==> SameAt(ks, ks', k)
    ensures var ks' := ks - {sessions};
      WellTyped(ks') && Members(ks') == {} && forall k :: k != sessions ==> SameAt(ks, ks', k)
  {
  }

  /** Adding a session adds its id to the online set, touches no other session, and stores the
      name and the descriptor when they can be stored. */
  lemma AddSessionEffect(ks: Keyspace, id: int, name: string, fd: int)
    requires WellTyped(ks) && IsInt32(id)
    ensures var (ks', ok) := AddSession(ks, id, name, fd, true, true);
      && ok && WellTyped(ks')
      && Members(ks') == Members(ks) + {ToString(id)}
      && (forall k :: k != SESSIONS && k != ToString(id) ==> SameAt(ks, ks', k))
      && (Storable(id, name, fd) ==> HasHash(ks', id, InRedis(name), fd))
  {
    IdIsNoSessionKey(id);
    SetCommandsRun(ks, id);
    SaddEffect(ks, ToString(id));
    var ks1 := Sadd(ks, SESSIONS, {ToString(id)}).0;
    SessionHashIsLocal(ks1, id, name, fd);
    if Storable(id, name, fd) {
      SessionHashIsStored(ks1, id, name, fd);
    }
    var ks2 := ExecuteCmd(ks1, Printed(HmsetText(ToString(id), SessionPairs(name, fd))), true).0;
    assert SameAt(ks1, ks2, SESSIONS);
    forall k | k != SESSIONS && k != ToString(id) ensures SameAt(ks, ks2, k) {
      assert SameAt(ks, ks1, k) && SameAt(ks1, ks2, k);
    }
  }

  /** Removing a session takes its id out of the online set and deletes its hash, no more. */
  lemma RemoveSessionEffect(ks: Keyspace, id: int)
    requires WellTyped(ks) && IsInt32(id)
    ensures var (ks', ok) := RemoveSession(ks, id, true, true);
      && ok && WellTyped(ks')
      && Members(ks') == Members(ks) - {ToString(id)}
      && ToString(id) !in ks'
      && (forall k :: k != SESSIONS && k != ToString(id) ==> SameAt(ks, ks', k))
  {
    IdIsNoSessionKey(id);
    SetCommandsRun(ks, id);
    SremEffect(ks, ToString(id));
    var ks1 := Srem(ks, SESSIONS, {ToString(id)}).0;
    DeleteRuns(ks1, id);
    forall k | k != SESSIONS && k != ToString(id) ensures SameAt(ks, ks1 - {ToString(id)}, k) {
      assert SameAt(ks, ks1, k);
    }
  }

  lemma DeleteRuns(ks: Keyspace, id: int)
    requires IsInt32(id)
    ensures ExecuteCmd(ks, CommandText("DEL", [ToString(id)]), true).0 == ks - {ToString(id)}
  {
    ToStringWord(id);
    ToStringLength(id);
    ToStringPlain(id);
    CommandRoundTrip("DEL", [ToString(id)]);
    PlainWordsPrint(["DEL", ToString(id)]);
    RunHashCommands(ks, ToString(id), "");
    assert ["DEL"] + [ToString(id)] == ["DEL", ToString(id)];
  }

  /** Membership in the online set is what `isTalkerOnline` answers. */
  lemma IsOnlineReadsMembers(ks: Keyspace, id: int)
    requires WellTyped(ks) && IsInt32(id)
    ensures IsOnline(ks, id, true) <==> ToString(id) in Members(ks)
  {
    IdIsNoSessionKey(id);
    CommandRuns(ks, "SISMEMBER", id, SESSIONS);
    RunSetCommands(ks, SESSIONS, ToString(id));
    assert ToString(1) == "1" && ToString(0) == "0";
  }

  /** The getters read back what was stored: `atoi` and `to_string` cancel. */
  lemma GettersReadHash(ks: Keyspace, id: int, name: string, fd: int)
    requires IsInt32(id) && HasHash(ks, id, name, fd)
    ensures TalkerFd(ks, id, true) == fd
    ensures TalkerField(ks, id, "name", true) == Some(name)
  {
    CommandRuns(ks, "hget", id, "fd");
    CommandRuns(ks, "hget", id, "name");
    RunHashCommands(ks, ToString(id), "fd");
    RunHashCommands(ks, ToString(id), "name");
    AtoiToString(fd);
  }

  /** Without a hash the getters do not fail: a nil reply reads as the empty name and as
      descriptor 0. */
  lemma GettersWithoutHash(ks: Keyspace, id: int)
    requires IsInt32(id) && ToString(id) !in ks
    ensures TalkerField(ks, id, "name", true) == Some("")
    ensures TalkerFd(ks, id, true) == 0
  {
    CommandRuns(ks, "hget", id, "fd");
    CommandRuns(ks, "hget", id, "name");
    RunHashCommands(ks, ToString(id), "fd");
    RunHashCommands(ks, ToString(id), "name");
  }

  /** Without an answer nobody is online, and there is no name and no descriptor. */
  lemma WithoutAnswers(ks: Keyspace, id: int, field: string)
    ensures !IsOnline(ks, id, false) && TalkerField(ks, id, field, false) == None && TalkerFd(ks, id, false) == -1
  {
  }

  /** Each of the two commands of a session is answered or not: without the first answer nothing
      changes, without the second the id has joined or left the online set and its hash stays as it
      was; either way the call fails. */
  lemma HalfDone(ks: Keyspace, id: int, name: string, fd: int, up2: bool)
    requires WellTyped(ks) && IsInt32(id)
    ensures AddSession(ks, id, name, fd, false, up2) == RemoveSession(ks, id, false, up2) == (ks, false)
    ensures var (added, ok) := AddSession(ks, id, name, fd, true, false);
      && !ok && WellTyped(added) && Members(added) == Members(ks) + {ToString(id)}
      && forall k :: k != SESSIONS ==> SameAt(ks, added, k)
    ensures var (removed, ok) := RemoveSession(ks, id, true, false);
      && !ok && WellTyped(removed) && Members(removed) == Members(ks) - {ToString(id)}
      && forall k :: k != SESSIONS ==> SameAt(ks, removed, k)
  {
    hide RunCommand, Arguments, CommandText, HmsetText, Printed;
    SetCommandsRun(ks, id);
    SaddEffect(ks, ToString(id));
    SremEffect(ks, ToString(id));
  }

  /** A call fails exactly when one of its two answers is missing: what Redis answers, an error
      included, is not looked at. */
  lemma AnswersAreNotRead(ks: Keyspace, id: int, name: string, fd: int, up1: bool, up2: bool)
    ensures AddSession(ks, id, name, fd, up1, up2).1 <==> up1 && up2
    ensures RemoveSession(ks, id, up1, up2).1 <==> up1 && up2
  {
    hide RunCommand, Arguments, CommandText, HmsetText, Printed;
  }

  /** After `addSessionTalker` the id is online, and its hash holds the twice printed name and the
      descriptor exactly when the name is one word; then both getters give these back, which is
      what was put in exactly for a printable name without a percent sign. */
  lemma SessionRoundTrip(ks: Keyspace, id: int, name: string, fd: int)
    requires WellTyped(ks) && IsInt32(id) && IsInt32(fd) && |name| <= 61
    ensures var ks' := AddSession(ks, id, name, fd, true, true).0;
      && IsOnline(ks', id, true)
      && (HasHash(ks', id, InRedis(name), fd) <==> IsWord(name))
      && (IsWord(name) ==>
            TalkerField(ks', id, "name", true) == Some(InRedis(name)) && TalkerFd(ks', id, true) == fd)
    ensures Printable(name) && InRedis(name) == name <==> '%' !in name
  {
    InRedisAsGiven(name);
    hide InRedis, Printable, AddSession, IsOnline, TalkerFd, TalkerField;
    AddSessionEffect(ks, id, name, fd);
    IdIsNoSessionKey(id);
    var ks' := AddSession(ks, id, name, fd, true, true).0;
    IsOnlineReadsMembers(ks', id);
    InRedisWord(name);
    if IsWord(name) {
      ShortNamesAreStorable(id, name, fd);
      GettersReadHash(ks', id, InRedis(name), fd);
    }
  }

  lemma InRedisWord(name: string)
    ensures IsWord(InRedis(name)) <==> IsWord(name)
  {
    PrintedWord(name);
    PrintedWord(Printed(name));
  }

  lemma ShortNamesAreStorable(id: int, name: string, fd: int)
    requires IsInt32(id) && IsInt32(fd) && |name| <= 61 && IsWord(name)
    ensures Storable(id, name, fd)
  {
    ToStringLength(id);
    ToStringLength(fd);
    TwoPairs(("name", name), ("fd", ToString(fd)));
    assert |PairText(("name", name))| == 6 + |name|;
    assert |PairText(("fd", ToString(fd)))| == 4 + |ToString(fd)|;
  }

  // ----- the lookups

  lemma NotAWriter(command: string)
    requires command in {"SISMEMBER", "hget"}
    ensures IsWord(command) && '%' !in command && command !in {"SADD", "SREM", "HMSET", "DEL"}
  {
    if command == "SISMEMBER" {
      assert command[1] == 'I';
    } else {
      assert command[0] == 'h';
    }
  }

  lemma ReadsOnly(ks: Keyspace, command: string, args: seq<string>)
    requires command in {"SISMEMBER", "hget"}
    ensures ExecuteCmd(ks, CommandText(command, args), true).0 == ks
  {
    hide Printed;
    var text := CommandText(command, args);
    NotAWriter(command);
    CutAfterPrefix(command + [' '], Join(args, ' '));
    var rest := Fit(text)[|command| + 1..];
    assert Fit(text) == command + [' '] + rest;
    PrintedAppend(command + [' '], rest);
    TokensCons(command, Printed(rest));
  }

  /** The lookups do not change the keyspace: their first token is a reading command. */
  lemma LookupsReadOnly(ks: Keyspace, id: int, field: string, up: bool)
    ensures ExecuteCmd(ks, CommandText("SISMEMBER", [SESSIONS, ToString(id)]), up).0 == ks
    ensures ExecuteCmd(ks, CommandText("hget", [ToString(id), field]), up).0 == ks
  {
    ReadsOnly(ks, "SISMEMBER", [SESSIONS, ToString(id)]);
    ReadsOnly(ks, "hget", [ToString(id), field]);
  }

  // ----- the object

  /** How the environment answers one Redis call. */
  datatype Link = Link(connects: bool, replies: bool)

  predicate Up(idle: seq<nat>, link: Link) { (idle != [] || link.connects) && link.replies }

  class ComManger {
    const client: KGRedisClient

    constructor (client: KGRedisClient)
      ensures this.client == client
    {
      this.client := client;
    }

    method AddSessionTalker(id: int, name: string, fd: int, first: Link, second: Link) returns (ok: bool)
      requires client.Accounted()
      modifies client
      ensures client.Accounted()
      ensures (client.keyspace, ok)
           == AddSession(old(client.keyspace), id, name, fd, Up(old(client.clients), first), second.replies)
    {
      var idStr := ToString(id);
      var fdStr := ToString(fd);
      var response := client.Execute(CommandText("SADD", [SESSIONS, idStr]), first.connects, first.replies);
      if response.Some? {
        var keyVals := [("name", name), ("fd", fdStr)];
        response := client.ExecHMset(idStr, keyVals, second.connects, second.replies);
        return response.Some?;
      }
      return false;
    }

    method IsTalkerOnline(id: int, link: Link) returns (online: bool)
      requires client.Accounted()
      modifies client
      ensures client.Accounted() && client.keyspace == old(client.keyspace)
      ensures online == IsOnline(old(client.keyspace), id, Up(old(client.clients), link))
    {
      LookupsReadOnly(client.keyspace, id, "", Up(client.clients, link));
      var response := client.Execute(CommandText("SISMEMBER", [SESSIONS, ToString(id)]), link.connects, link.replies);
      online := response.Some? && response.value == "1";
    }

    method RemoveSessionTalker(id: int, first: Link, second: Link) returns (ok: bool)
      requires client.Accounted()
      modifies client
      ensures client.Accounted()
      ensures (client.keyspace, ok)
           == RemoveSession(old(client.keyspace), id, Up(old(client.clients), first), second.replies)
    {
      var response := client.Execute(CommandText("SREM", [SESSIONS, ToString(id)]), first.connects, first.replies);
      if response.Some? {
        response := client.Execute(CommandText("DEL", [ToString(id)]), second.connects, second.replies);
        return response.Some?;
      }
      return false;
    }

    method GetTalkerFd(id: int, link: Link) returns (fd: int)
      requires client.Accounted()
      modifies client
      ensures client.Accounted() && client.keyspace == old(client.keyspace)
      ensures fd == TalkerFd(old(client.keyspace), id, Up(old(client.clients), link))
    {
      LookupsReadOnly(client.keyspace, id, "fd", Up(client.clients, link));
      var response := client.Execute(CommandText("hget", [ToString(id), "fd"]), link.connects, link.replies);
      if response.Some? {
        return Atoi(response.value);
      }
      return -1;
    }

    method GetTalkerName(id: int, link: Link) returns (name: Option<string>)
      requires client.Accounted()
      modifies client
      ensures client.Accounted() && client.keyspace == old(client.keyspace)
      ensures name == TalkerField(old(client.keyspace), id, "name", Up(old(client.clients), link))
    {
      LookupsReadOnly(client.keyspace, id, "name", Up(client.clients, link));
      name := client.Execute(CommandText("hget", [ToString(id), "name"]), link.connects, link.replies);
    }
  }
}
