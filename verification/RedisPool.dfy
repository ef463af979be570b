/** The Redis client: commands rendered as text into a 100-byte buffer, tokenised on blanks,
    run on a keyspace, and their replies decoded to strings. */
module RedisPool {
  import opened Wrappers
  import opened Text
  import opened Counting

  datatype Entry = Set(members: set<string>) | Hash(fields: map<string, string>)

  type Keyspace = map<string, Entry>

  datatype Reply = Integer(n: int) | Str(s: string) | Status(s: string) | Nil | Error(s: string)

  // ----- the server

  const WRONG_TYPE: Reply := Error("WRONGTYPE Operation against a key holding the wrong kind of value")
  const WRONG_ARGS: Reply := Error("ERR wrong number of arguments")

  function Sadd(ks: Keyspace, key: string, added: set<string>): (Keyspace, Reply) {
    if key !in ks then (ks[key := Set(added)], Integer(|added|))
    else
      match ks[key]
      case Set(members) => (ks[key := Set(members + added)], Integer(|added - members|))
      case Hash(_) => (ks, WRONG_TYPE)
  }

  function Sismember(ks: Keyspace, key: string, member: string): Reply {
    if key !in ks then Integer(0)
    else
      match ks[key]
      case Set(members) => Integer(if member in members then 1 else 0)
      case Hash(_) => WRONG_TYPE
  }

  /** A set that becomes empty is gone. */
  function Srem(ks: Keyspace, key: string, removed: set<string>): (Keyspace, Reply) {
    if key !in ks then (ks, Integer(0))
    else
      match ks[key]
      case Set(members) =>
        (if members <= removed then ks - {key} else ks[key := Set(members - removed)],
         Integer(|members * removed|))
      case Hash(_) => (ks, WRONG_TYPE)
  }

  /** Field and value by turns; a later value replaces an earlier one. */
  function Update(fields: map<string, string>, args: seq<string>): map<string, string>
    requires |args| % 2 == 0
    decreases |args|
  {
    if args == [] then fields else Update(fields[args[0] := args[1]], args[2..])
  }

  function Hmset(ks: Keyspace, key: string, args: seq<string>): (Keyspace, Reply) {
    if args == [] || |args| % 2 != 0 then (ks, WRONG_ARGS)
    else if key !in ks then (ks[key := Hash(Update(map[], args))], Status("OK"))
    else
      match ks[key]
      case Hash(fields) => (ks[key := Hash(Update(fields, args))], Status("OK"))
      case Set(_) => (ks, WRONG_TYPE)
  }

  function Hget(ks: Keyspace, key: string, field: string): Reply {
    if key !in ks then Nil
    else
      match ks[key]
      case Hash(fields) => if field in fields then Str(fields[field]) else Nil
      case Set(_) => WRONG_TYPE
  }

  function Del(ks: Keyspace, keys: set<string>): (Keyspace, Reply) {
    (ks - keys, Integer(|ks.Keys * keys|))
  }

  function Elements(s: seq<string>): set<string> { set x | x in s }

  function RunCommand(ks: Keyspace, argv: seq<string>): (Keyspace, Reply) {
    if |argv| < 2 then (ks, WRONG_ARGS)
    else if argv[0] == "DEL" then Del(ks, Elements(argv[1..]))
    else if |argv| < 3 then (ks, WRONG_ARGS)
    else if argv[0] == "SADD" then Sadd(ks, argv[1], Elements(argv[2..]))
    else if argv[0] == "SREM" then Srem(ks, argv[1], Elements(argv[2..]))
    else if argv[0] == "HMSET" then Hmset(ks, argv[1], argv[2..])
    else if |argv| > 3 then (ks, WRONG_ARGS)
    else if argv[0] == "SISMEMBER" then (ks, Sismember(ks, argv[1], argv[2]))
    else if argv[0] == "hget" then (ks, Hget(ks, argv[1], argv[2]))
    else (ks, Error("ERR unknown command"))
  }

  lemma RunSetCommands(ks: Keyspace, key: string, member: string)
    ensures RunCommand(ks, ["SADD", key, member]) == Sadd(ks, key, {member})
    ensures RunCommand(ks, ["SREM", key, member]) == Srem(ks, key, {member})
    ensures RunCommand(ks, ["SISMEMBER", key, member]) == (ks, Sismember(ks, key, member))
  {
    assert Elements([member]) == {member} by { assert member in [member]; }
    assert ["SADD", key, member][2..] == ["SREM", key, member][2..] == [member];
  }

  lemma RunHashCommands(ks: Keyspace, key: string, field: string)
    ensures RunCommand(ks, ["hget", key, field]) == (ks, Hget(ks, key, field))
    ensures RunCommand(ks, ["DEL", key]) == Del(ks, {key})
  {
    assert ["DEL", key][1..] == [key];
    assert Elements([key]) == {key} by { assert key in [key]; }
  }

  lemma RunHmset(ks: Keyspace, key: string, args: seq<string>)
    ensures RunCommand(ks, ["HMSET", key] + args) == Hmset(ks, key, args)
  {
    assert (["HMSET", key] + args)[2..] == args;
  }

  // ----- the client

  /** How a reply of the kinds above becomes the first response string. */
  function Decode(reply: Reply): string {
    match reply
    case Integer(n) => ToString(n)
    case Str(s) => s
    case Status(s) => s
    case Nil => ""
    case Error(s) => s
  }

  /** The arguments that `redisCommand` makes of the buffer, which it takes as a format. */
  function Arguments(text: string): seq<string> { Tokens(Printed(Fit(text))) }

  /** `ExecuteCmd_spop`: without a context or a reply it fails and has no effect; otherwise it
      succeeds, whatever the reply, errors included. */
  function ExecuteCmd(ks: Keyspace, text: string, up: bool): (Keyspace, Option<string>) {
    if !up then (ks, None)
    else
      var (after, reply) := RunCommand(ks, Arguments(text));
      (after, Some(Decode(reply)))
  }

  function PairText(p: (string, string)): string { " " + p.0 + " " + p.1 }

  function PairsText(pairs: seq<(string, string)>): string {
    if pairs == [] then "" else PairText(pairs[0]) + PairsText(pairs[1..])
  }

  /** The text that `ExecHMset` builds, and passes as the format itself. */
  function HmsetText(key: string, pairs: seq<(string, string)>): string {
    "HMSET" + [' '] + (key + PairsText(pairs))
  }

  function Flatten(pairs: seq<(string, string)>): seq<string> {
    if pairs == [] then [] else [pairs[0].0, pairs[0].1] + Flatten(pairs[1..])
  }

  lemma TwoPairs(p: (string, string), q: (string, string))
    ensures PairsText([p, q]) == PairText(p) + PairText(q)
    ensures Flatten([p, q]) == [p.0, p.1, q.0, q.1]
  {
    assert [p, q][1..] == [q];
    assert [q][1..] == [];
    assert PairsText([q]) == PairText(q);
    assert Flatten([q]) == [q.0, q.1];
  }

  lemma UpdateTwo(fields: map<string, string>, a: string, b: string, c: string, d: string)
    ensures Update(fields, [a, b, c, d]) == fields[a := b][c := d]
  {
    assert [a, b, c, d][2..] == [c, d];
    assert [c, d][2..] == [];
    assert Update(fields[a := b], [c, d]) == fields[a := b][c := d];
  }

  lemma {:induction false} PairsTextAppend(pairs: seq<(string, string)>, p: (string, string))
    ensures PairsText(pairs + [p]) == PairsText(pairs) + PairText(p)
  {
    if pairs == [] {
      assert [p][1..] == [];
    } else {
      assert (pairs + [p])[1..] == pairs[1..] + [p];
      PairsTextAppend(pairs[1..], p);
      var (head, tail) := (PairText(pairs[0]), PairsText(pairs[1..]));
      assert head + (tail + PairText(p)) == (head + tail) + PairText(p);
    }
  }

  lemma {:induction false} WordThenPairs(w: string, pairs: seq<(string, string)>)
    ensures w + PairsText(pairs) == Join([w] + Flatten(pairs), ' ')
    decreases |pairs|
  {
    if pairs != [] {
      var (a, b) := (pairs[0].0, pairs[0].1);
      WordThenPairs(b, pairs[1..]);
      var args := [w] + Flatten(pairs);
      assert args[1..] == [a] + ([b] + Flatten(pairs[1..]));
      assert args[1..][1..] == [b] + Flatten(pairs[1..]);
    }
  }

  lemma {:induction false} FlattenWords(pairs: seq<(string, string)>)
    requires forall p :: p in pairs ==> IsWord(p.0) && IsWord(p.1)
    ensures forall w :: w in Flatten(pairs) ==> IsWord(w)
  {
    if pairs != [] {
      assert pairs[0] in pairs;
      FlattenWords(pairs[1..]);
    }
  }

  /** The text of a command with its arguments. */
  function CommandText(command: string, args: seq<string>): string {
    command + [' '] + Join(args, ' ')
  }

  lemma CommandRoundTrip(command: string, args: seq<string>)
    requires IsWord(command) && args != [] && forall w :: w in args ==> IsWord(w)
    requires |CommandText(command, args)| <= 99
    ensures Arguments(CommandText(command, args)) == PrintedAll([command] + args)
  {
    var words := [command] + args;
    assert words[1..] == args;
    TokensOfPrinted(words);
  }

  /** What Redis holds of a value that goes through the text of HMSET: printed once by `vsnprintf`
      and once by `redisCommand`. */
  function InRedis(value: string): string { Printed(Printed(value)) }

  /** Both times the value is a defined format. */
  predicate Printable(value: string) { Defined(value) && Defined(Printed(value)) }

  /** A value is held as it is exactly when it is printable without a percent sign. */
  lemma InRedisAsGiven(value: string)
    ensures Printable(value) && InRedis(value) == value <==> '%' !in value
  {
    PrintedAsGiven(value);
    if Printable(value) && InRedis(value) == value {
      PrintedAsGiven(Printed(value));
      assert |Printed(Printed(value))| <= |Printed(value)| <= |value|;
      ShorterPrint(value);
    }
  }

  /** A text that prints as long as it is prints as itself. */
  lemma {:induction false} ShorterPrint(s: string)
    ensures |Printed(s)| == |s| ==> Printed(s) == s
    decreases |s|
  {
    if s != [] {
      ShorterPrint(s[1..]);
      assert s == [s[0]] + s[1..];
    }
  }

  lemma HmsetIsJoined(key: string, pairs: seq<(string, string)>)
    ensures HmsetText(key, pairs) == Join(["HMSET", key] + Flatten(pairs), ' ')
  {
    var words := ["HMSET", key] + Flatten(pairs);
    WordThenPairs(key, pairs);
    assert words[1..] == [key] + Flatten(pairs);
  }

  /** The rendered command tokenises back to the key, the fields and the values, each printed
      twice, whenever each of them is one word and the printed text fits the buffer. */
  lemma HmsetRoundTrip(key: string, pairs: seq<(string, string)>)
    requires IsWord(key) && forall p :: p in pairs ==> IsWord(p.0) && IsWord(p.1)
    requires |Printed(HmsetText(key, pairs))| <= 99
    ensures Arguments(Printed(HmsetText(key, pairs)))
         == PrintedAll(PrintedAll(["HMSET", key] + Flatten(pairs)))
  {
    hide Printed, Tokens;
    var words := ["HMSET", key] + Flatten(pairs);
    HmsetIsJoined(key, pairs);
    hide HmsetText;
    FlattenWords(pairs);
    PrintedJoin(words);
    PrintedWords(words);
    TokensOfPrinted(PrintedAll(words));
  }

  /** Cut off or not, a command whose key survives the cut acts on that key alone. */
  lemma HmsetKeySurvives(key: string, rest: string) returns (args: seq<string>)
    requires IsWord(key) && '%' !in key && |key| <= 92
    ensures Arguments(Printed("HMSET" + " " + key + " " + rest)) == ["HMSET", key] + args
    ensures forall w :: w in args ==> IsWord(w)
  {
    args := PrefixSurvives("HMSET", key, rest);
  }

  lemma PrefixSurvives(command: string, key: string, rest: string) returns (args: seq<string>)
    requires IsWord(command) && '%' !in command && IsWord(key) && '%' !in key && |command| + |key| <= 97
    ensures Arguments(Printed(command + " " + key + " " + rest)) == [command, key] + args
    ensures forall w :: w in args ==> IsWord(w)
  {
    hide Printed, Tokens;
    var prefix := command + " " + key + " ";
    PrintedAppend(prefix, rest);
    var printed := Printed(rest);
    var kept := if |printed| > 99 - |prefix| then printed[..99 - |prefix|] else printed;
    CutAfterPrefix(prefix, printed);
    PrintedAppend(prefix, kept);
    args := Tokens(Printed(kept));
    TokensAreWords(Printed(kept));
    TokensCons(key, Printed(kept));
    TokensCons(command, key + [' '] + Printed(kept));
    assert prefix + Printed(kept) == command + [' '] + (key + [' '] + Printed(kept));
  }

  // ----- the object

  /** The client's command buffer and its queue of contexts, changed in place.  The keyspace is
      the server's; it is a field here because every change to it goes through this client. */
  class KGRedisClient {
    var cmdBuf: string
    var clients: seq<nat>
    var next: nat         // contexts connected so far
    ghost var freed: set<nat>
    var keyspace: Keyspace

    /** Every context ever connected is idle or freed, in one place and once. */
    ghost predicate Accounted()
      reads this
    {
      && NoDuplicates(clients)
      && (forall c: nat :: c < next <==> c in clients || c in freed)
      && (forall c: nat :: c in clients ==> c !in freed)
    }

    /** One context is out with a caller; the others are idle or freed. */
    ghost predicate BorrowedAlone(ctx: nat)
      reads this
    {
      && NoDuplicates(clients)
      && ctx !in clients && ctx !in freed
      && (forall c: nat :: c < next <==> c in clients || c in freed || c == ctx)
      && (forall c: nat :: c in clients ==> c !in freed)
    }

    constructor (ks: Keyspace)
      ensures Accounted() && keyspace == ks && clients == []
    {
      cmdBuf, clients, next, freed, keyspace := "", [], 0, {}, ks;
    }

    /** An idle context if there is one, else a new connection, if it succeeds. */
    method CreateContext(connects: bool) returns (ctx: Option<nat>)
      requires Accounted()
      modifies this`clients, this`next
      ensures ctx.Some? <==> old(clients) != [] || connects
      ensures old(clients) != [] ==> ctx == Some(old(clients)[0]) && clients == old(clients)[1..]
      ensures next == old(next) + if old(clients) == [] && connects then 1 else 0
      ensures if ctx.Some? then BorrowedAlone(ctx.value) else Accounted()
    {
      if clients != [] {
        assert clients == [clients[0]] + clients[1..];
        ctx := Some(clients[0]);
        clients := clients[1..];
        assert forall c: nat :: c in old(clients) <==> c == ctx.value || c in clients;
      } else if connects {
        ctx := Some(next);
        next := next + 1;
      } else {
        ctx := None;
      }
    }

    /** Back to the queue if the connection still works, else freed. */
    method ReleaseContext(ctx: Option<nat>, active: bool)
      requires if ctx.Some? then BorrowedAlone(ctx.value) else Accounted()
      modifies this`clients, this`freed
      ensures Accounted()
      ensures clients == if ctx.Some? && active then old(clients) + [ctx.value] else old(clients)
      ensures freed == if ctx.Some? && !active then old(freed) + {ctx.value} else old(freed)
    {
      if ctx.None? {
        return;
      }
      if !active {
        freed := freed + {ctx.value};
        return;
      }
      clients := clients + [ctx.value];
      assert forall c: nat :: c in clients <==> c in old(clients) || c == ctx.value;
    }

    /** Renders, borrows a context, runs the command, gives the context back or frees it. */
    method Execute(text: string, connects: bool, replies: bool) returns (response: Option<string>)
      requires Accounted()
      modifies this
      ensures (keyspace, response) == ExecuteCmd(old(keyspace), text, (old(clients) != [] || connects) && replies)
      ensures cmdBuf == Fit(text)
      ensures Accounted()
      ensures response.Some? ==> clients != []
    {
      cmdBuf := Fit(text);
      var ctx := CreateContext(connects);
      if ctx.None? {
        return None;
      }
      if replies {
        var (after, reply) := RunCommand(keyspace, Tokens(Printed(cmdBuf)));
        keyspace := after;
        response := Some(Decode(reply));
      } else {
        response := None;
      }
      ReleaseContext(ctx, replies);
    }

    /** The loop that builds the HMSET text, which is then the format of the command. */
    method ExecHMset(key: string, pairs: seq<(string, string)>, connects: bool, replies: bool)
      returns (response: Option<string>)
      requires Accounted()
      modifies this
      ensures (keyspace, response)
           == ExecuteCmd(old(keyspace), Printed(HmsetText(key, pairs)), (old(clients) != [] || connects) && replies)
      ensures Accounted()
      ensures response.Some? ==> clients != []
    {
      var text := "HMSET" + " " + key;
      for i := 0 to |pairs|
        invariant text == HmsetText(key, pairs[..i])
        modifies {}
      {
        assert pairs[..i + 1] == pairs[..i] + [pairs[i]];
        PairsTextAppend(pairs[..i], pairs[i]);
        text := text + " " + pairs[i].0 + " " + pairs[i].1;
        assert text == HmsetText(key, pairs[..i]) + PairText(pairs[i]);
      }
      assert pairs[..|pairs|] == pairs;
      response := Execute(Printed(text), connects, replies);
    }
  }
}
