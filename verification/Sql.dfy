/** The statements that the handlers render as text, and what the database reads in them.

    Names and passwords are pasted between single quotes as they are.  A text that is not of the
    intended shape either cannot be a statement at all (`Broken`), or is some other statement,
    whose result is left to the environment (`Stray`). */
module Sql {
  import opened Wrappers
  import opened Text

  datatype Query = PasswordOf | PasswordAndIdOf | IdOf

  function FromUsers(): (p: string)
    ensures |p| == 32
  {
    "from userinfo where username = '"
  }

  function Prefix(q: Query): (p: string)
    ensures 46 <= |p| <= 56
  {
    match q
    case PasswordOf => "select password " + FromUsers()
    case PasswordAndIdOf => "select password, userid " + FromUsers()
    case IdOf => "select userid " + FromUsers()
  }

  function SelectText(prefix: string, name: string): string {
    prefix + (name + ("'" + ";"))
  }

  function ColumnList(): (p: string)
    ensures |p| == 33
  {
    "(username, fd, password) values('"
  }

  function InsertPrefix(): (p: string)
    ensures |p| == 54
  {
    "insert into userinfo " + ColumnList()
  }

  function InsertText(prefix: string, name: string, fd: string, password: string): string {
    prefix + (name + ("'" + AfterName(fd, password)))
  }

  function AfterName(fd: string, password: string): string { ", " + (fd + AfterNumber(password)) }

  function AfterNumber(password: string): string { ", '" + (password + ("'" + ");")) }

  /** The columns that the handlers read of a result, as they are listed. */
  function Columns(q: Query): seq<string> {
    match q
    case PasswordOf => ["password"]
    case PasswordAndIdOf => ["password,", "userid"]
    case IdOf => ["userid"]
  }

  lemma TwoWords(a: string, b: string, rest: string)
    requires IsWord(a) && IsWord(b)
    ensures Tokens(a + [' '] + (b + [' '] + rest)) == [a, b] + Tokens(rest)
  {
    hide Tokens;
    TokensCons(b, rest);
    TokensCons(a, b + [' '] + rest);
  }

  lemma LastWord(w: string)
    requires IsWord(w)
    ensures Tokens(w) == [w]
  {
    assert w[|w|..] == [];
  }

  /** The words from the table on: the name is compared with the column `username`. */
  function WhereName(): seq<string> { ["from", "userinfo", "where", "username", "=", "'"] }

  lemma FromIsWritten()
    ensures FromUsers()
         == "from" + [' '] + ("userinfo" + [' '] + ("where" + [' '] + ("username" + [' '] + ("=" + [' '] + "'"))))
  {
  }

  lemma SixWords(a: string, b: string, c: string, d: string, e: string, f: string)
    requires IsWord(a) && IsWord(b) && IsWord(c) && IsWord(d) && IsWord(e) && IsWord(f)
    ensures Tokens(a + [' '] + (b + [' '] + (c + [' '] + (d + [' '] + (e + [' '] + f))))) == [a, b, c, d, e, f]
  {
    hide Tokens;
    LastWord(f);
    TokensCons(e, f);
    TwoWords(c, d, e + [' '] + f);
    TwoWords(a, b, c + [' '] + (d + [' '] + (e + [' '] + f)));
  }

  lemma OneColumn(column: string, rest: string)
    ensures "select " + column + [' '] + rest == "select" + [' '] + (column + [' '] + rest)
  {
    assert "select " == "select" + [' '];
  }

  lemma ColumnsAsWritten()
    ensures "select password " == "select " + "password" + [' '] && "select userid " == "select " + "userid" + [' ']
    ensures "select password, userid " == "select " + "password," + [' '] + ("userid" + [' '])
  {
  }

  lemma SelectsAreWritten(q: Query)
    ensures Prefix(q) == "select" + [' ']
      + (if q == PasswordAndIdOf then "password," + [' '] + ("userid" + [' '] + FromUsers())
         else (if q == IdOf then "userid" else "password") + [' '] + FromUsers())
  {
    hide FromUsers;
    ColumnsAsWritten();
    OneColumn("password", FromUsers());
    OneColumn("userid", FromUsers());
    OneColumn("password,", "userid" + [' '] + FromUsers());
  }

  /** Each SELECT asks for the columns that its handler reads, by name. */
  lemma SelectsByName(q: Query)
    ensures Tokens(Prefix(q)) == ["select"] + Columns(q) + WhereName()
  {
    hide Tokens, Prefix, FromUsers;
    FromIsWritten();
    var from := FromUsers();
    SixWords("from", "userinfo", "where", "username", "=", "'");
    SelectsAreWritten(q);
    match q
    case PasswordOf => TwoWords("select", "password", from);
    case PasswordAndIdOf =>
      TwoWords("select", "password,", "userid" + [' '] + from);
      TokensCons("userid", from);
    case IdOf => TwoWords("select", "userid", from);
  }

  lemma ColumnsAreWritten()
    ensures ColumnList() == "(username," + [' '] + ("fd," + [' '] + ("password)" + [' '] + "values('"))
  {
  }

  lemma InsertIsWritten()
    ensures InsertPrefix() == "insert" + [' '] + ("into" + [' '] + ("userinfo" + [' '] + ColumnList()))
  {
    hide ColumnList;
    assert "insert into userinfo " == "insert" + [' '] + ("into" + [' '] + ("userinfo" + [' ']));
  }

  /** The INSERT names the table, and the columns in the order of its values. */
  lemma InsertsByColumn()
    ensures Tokens(InsertPrefix()) == ["insert"] + ["into", "userinfo", "(username,", "fd,", "password)", "values('"]
  {
    hide Tokens, InsertPrefix, ColumnList;
    InsertIsWritten();
    ColumnsAreWritten();
    SixWords("into", "userinfo", "(username,", "fd,", "password)", "values('");
    TokensCons("insert", "into" + [' ']
      + ("userinfo" + [' '] + ("(username," + [' '] + ("fd," + [' '] + ("password)" + [' '] + "values('")))));
  }

  // ----- what the database reads

  /** The value of an escape; `\%` and `\_` keep their backslash. */
  function Escape(c: char): string {
    if c == 'n' then "\n" else if c == 't' then "\t" else if c == 'r' then "\r"
    else if c == 'b' then [8 as char] else if c == 'Z' then [26 as char] else if c == '0' then "\0"
    else if c == '%' || c == '_' then ['\\', c]
    else [c]
  }

  datatype Token = Token(value: string, rest: string)

  function Prepend(s: string, t: Option<Token>): Option<Token> {
    if t.None? then None else Some(Token(s + t.value.value, t.value.rest))
  }

  /** A string literal after its opening quote: its value and what follows the closing quote, or
      None if it does not end. */
  function ReadLiteral(s: string): (t: Option<Token>)
    ensures t.Some? ==> |t.value.value| + 1 + |t.value.rest| <= |s| && t.value.rest == s[|s| - |t.value.rest|..]
    decreases |s|
  {
    if s == [] then None
    else if s[0] == '\'' then
      if |s| > 1 && s[1] == '\'' then Prepend("'", ReadLiteral(s[2..])) else Some(Token([], s[1..]))
    else if s[0] == '\\' then
      if |s| > 1 then Prepend(Escape(s[1]), ReadLiteral(s[2..])) else None
    else Prepend([s[0]], ReadLiteral(s[1..]))
  }

  datatype Reading<T> = Read(value: T) | Broken | Stray

  /** The name that a SELECT asks for.  The semicolon may be missing. */
  function ReadSelect(prefix: string, text: string): Reading<string> {
    if !(prefix <= text) then Stray
    else
      match ReadLiteral(text[|prefix|..])
      case None => Broken
      case Some(t) => if t.rest == [] || t.rest == ";" then Read(t.value) else Stray
  }

  datatype NewRow = NewRow(username: string, fd: string, password: string)

  function ReadInsert(prefix: string, text: string): Reading<NewRow> {
    if !(prefix <= text) then Stray
    else
      match ReadLiteral(text[|prefix|..])
      case None => Broken
      case Some(t) => ReadAfterName(t.value, t.rest)
  }

  /** The comma and the number; a text that ends in here is no statement. */
  function ReadAfterName(name: string, s: string): Reading<NewRow> {
    if s == [] || s == "," then Broken
    else if !(", " <= s) then Stray
    else
      var number := UpTo(s[2..], ',');
      ReadAfterNumber(name, number, s[2 + |number|..])
  }

  predicate IsNumber(s: string) { s == ToString(Atoi(s)) }

  predicate Numeric(s: string) { forall i :: 0 <= i < |s| ==> IsDigit(s[i]) || s[i] == '-' }

  function ReadAfterNumber(name: string, number: string, s: string): Reading<NewRow> {
    if !Numeric(number) then Stray
    else if s == [] || s == "," || s == ", " then Broken
    else if !IsNumber(number) || !(", '" <= s) then Stray
    else ReadPassword(name, number, s[3..])
  }

  function ReadPassword(name: string, number: string, s: string): Reading<NewRow> {
    match ReadLiteral(s)
    case None => Broken
    case Some(t) =>
      if t.rest == [] then Broken
      else if t.rest == ")" || t.rest == ");" then Read(NewRow(name, number, t.value))
      else Stray
  }

  // ----- when the literal ends where it was meant to

  function Then(s: string, t: Option<string>): Option<string> {
    if t.None? then None else Some(s + t.value)
  }

  /** The value of a text pasted between quotes, if its quotes are doubled and its backslashes
      paired; otherwise the literal ends too early or too late. */
  function Literal(s: string): Option<string>
    decreases |s|
  {
    if s == [] then Some([])
    else if s[0] == '\'' then if |s| > 1 && s[1] == '\'' then Then("'", Literal(s[2..])) else None
    else if s[0] == '\\' then if |s| > 1 then Then(Escape(s[1]), Literal(s[2..])) else None
    else Then([s[0]], Literal(s[1..]))
  }

  /** No quote, and no backslash except before `%` or `_`. */
  predicate Quotable(s: string)
    decreases |s|
  {
    s == [] ||
    (if s[0] == '\\' then |s| > 1 && (s[1] == '%' || s[1] == '_') && Quotable(s[2..])
     else s[0] != '\'' && Quotable(s[1..]))
  }

  /** In particular every text without quotes and backslashes. */
  lemma {:induction false} PlainIsQuotable(s: string)
    requires '\'' !in s && '\\' !in s
    ensures Quotable(s)
  {
    if s != [] {
      PlainIsQuotable(s[1..]);
    }
  }

  lemma {:induction false} LiteralShrinks(s: string)
    ensures Literal(s).Some? ==> |Literal(s).value| <= |s|
    decreases |s|
  {
    if s != [] {
      LiteralShrinks(s[1..]);
      if |s| > 1 { LiteralShrinks(s[2..]); }
    }
  }

  /** A text is its own literal exactly when it is quotable. */
  lemma {:induction false} QuotableIsExact(s: string)
    ensures Literal(s) == Some(s) <==> Quotable(s)
    decreases |s|
  {
    if s == [] {
    } else if s[0] == '\\' {
      if |s| > 1 {
        QuotableIsExact(s[2..]);
        LiteralShrinks(s[2..]);
        assert s == [s[0], s[1]] + s[2..];
      }
    } else if s[0] == '\'' {
      if |s| > 1 { LiteralShrinks(s[2..]); }
    } else {
      QuotableIsExact(s[1..]);
      assert s == [s[0]] + s[1..];
    }
  }

  /** One step of the reader, on a plain character or on a pair. */
  lemma ReadChar(c: char, s: string)
    requires c != '\'' && c != '\\'
    ensures ReadLiteral([c] + s) == Prepend([c], ReadLiteral(s))
    ensures Literal([c] + s) == Then([c], Literal(s))
  {
    assert ([c] + s)[1..] == s;
  }

  predicate IsPair(c: char, d: char) { c == '\\' || (c == '\'' && d == '\'') }

  function PairValue(c: char, d: char): (v: string)
    ensures |v| <= 2 && (|v| == 2 ==> c == '\\' && (d == '%' || d == '_') && v == [c, d])
  {
    if c == '\\' then Escape(d) else "'"
  }

  lemma ReadPair(c: char, d: char, s: string)
    requires IsPair(c, d)
    ensures ReadLiteral([c, d] + s) == Prepend(PairValue(c, d), ReadLiteral(s))
    ensures Literal([c, d] + s) == Then(PairValue(c, d), Literal(s))
  {
    assert ([c, d] + s)[2..] == s;
    assert ([c, d] + s)[0] == c && ([c, d] + s)[1] == d;
  }

  /** Before any rest that does not begin with another quote, the literal ends at its own. */
  lemma {:induction false} ReadLiteralEnds(s: string, rest: string)
    requires Literal(s).Some? && (rest == [] || rest[0] != '\'')
    ensures ReadLiteral(s + ("'" + rest)) == Some(Token(Literal(s).value, rest))
    decreases |s|
  {
    if s == [] {
      assert s + ("'" + rest) == "'" + rest;
      assert ("'" + rest)[1..] == rest;
    } else if s[0] == '\'' || s[0] == '\\' {
      hide ReadLiteral, PairValue;
      assert IsPair(s[0], s[1]);
      hide Literal;
      PairThenRest(s, "'" + rest);
      ReadLiteralEnds(s[2..], rest);
    } else {
      hide ReadLiteral, Literal;
      CharThenRest(s, "'" + rest);
      ReadLiteralEnds(s[1..], rest);
    }
  }

  lemma PairThenRest(s: string, more: string)
    requires |s| > 1 && IsPair(s[0], s[1])
    ensures ReadLiteral(s + more) == Prepend(PairValue(s[0], s[1]), ReadLiteral(s[2..] + more))
    ensures Literal(s) == Then(PairValue(s[0], s[1]), Literal(s[2..]))
  {
    hide ReadLiteral, Literal, PairValue;
    ReadPair(s[0], s[1], s[2..] + more);
    ReadPair(s[0], s[1], s[2..]);
    assert s == [s[0], s[1]] + s[2..];
    assert s + more == [s[0], s[1]] + (s[2..] + more);
  }

  lemma CharThenRest(s: string, more: string)
    requires |s| > 0 && s[0] != '\'' && s[0] != '\\'
    ensures ReadLiteral(s + more) == Prepend([s[0]], ReadLiteral(s[1..] + more))
    ensures Literal(s) == Then([s[0]], Literal(s[1..]))
  {
    hide ReadLiteral, Literal;
    ReadChar(s[0], s[1..] + more);
    ReadChar(s[0], s[1..]);
    assert s == [s[0]] + s[1..];
    assert s + more == [s[0]] + (s[1..] + more);
  }

  /** A literal that loses no character on the way is quotable. */
  lemma {:induction false} ExactLiteral(s: string)
    requires ReadLiteral(s).Some?
    requires |ReadLiteral(s).value.value| + 1 + |ReadLiteral(s).value.rest| == |s|
    ensures Quotable(ReadLiteral(s).value.value)
    decreases |s|
  {
    if s[0] == '\'' || s[0] == '\\' {
      if |s| > 1 && IsPair(s[0], s[1]) {
        PairThenRest(s, []);
        assert s + [] == s && s[2..] + [] == s[2..];
        var v := ReadLiteral(s[2..]).value.value;
        assert PairValue(s[0], s[1]) == [s[0], s[1]];
        ExactLiteral(s[2..]);
        assert (PairValue(s[0], s[1]) + v)[2..] == v;
      }
    } else {
      CharThenRest(s, []);
      assert s + [] == s && s[1..] + [] == s[1..];
      ExactLiteral(s[1..]);
      var v := ReadLiteral(s[1..]).value.value;
      assert ([s[0]] + v)[1..] == v;
    }
  }

  /** Cut there, the literal does not end, or ends with the text, after half a doubled quote. */
  predicate CutOpen(s: string, k: nat)
    requires k <= |s|
  {
    ReadLiteral(s[..k]).Some? ==> ReadLiteral(s[..k]).value.rest == [] && !Quotable(s)
  }

  lemma HalfPair(s: string)
    requires |s| > 0 && (s[0] == '\'' || s[0] == '\\')
    ensures CutOpen(s, 1)
  {
  }

  lemma CutChar(s: string, k: nat)
    requires 0 < k <= |s| && s[0] != '\'' && s[0] != '\\' && CutOpen(s[1..], k - 1)
    ensures CutOpen(s, k)
  {
    assert Quotable(s) ==> Quotable(s[1..]);
    hide ReadLiteral, Literal, Quotable;
    var kept := s[1..][..k - 1];
    assert s[..k] == [s[0]] + kept;
    ReadChar(s[0], kept);
  }

  lemma CutPair(s: string, k: nat)
    requires 2 <= k <= |s| && IsPair(s[0], s[1]) && CutOpen(s[2..], k - 2)
    ensures CutOpen(s, k)
  {
    assert Quotable(s) ==> Quotable(s[2..]);
    hide ReadLiteral, Literal, Quotable, PairValue;
    var kept := s[2..][..k - 2];
    assert s[..k] == [s[0], s[1]] + kept;
    ReadPair(s[0], s[1], kept);
  }

  lemma {:induction false} CutLiteral(s: string, k: nat)
    requires Literal(s).Some? && k <= |s|
    ensures CutOpen(s, k)
    decreases |s|
  {
    if k == 0 {
    } else if s[0] == '\'' || s[0] == '\\' {
      assert |s| > 1 && IsPair(s[0], s[1]) && Literal(s[2..]).Some?;
      hide Literal, CutOpen;
      if k == 1 {
        HalfPair(s);
      } else {
        CutLiteral(s[2..], k - 2);
        CutPair(s, k);
      }
    } else {
      assert Literal(s[1..]).Some?;
      hide Literal, CutOpen;
      CutLiteral(s[1..], k - 1);
      CutChar(s, k);
    }
  }

  function Take(s: string, c: nat): (t: string)
    ensures |t| == if |s| > c then c else |s|
  {
    if |s| > c then s[..c] else s
  }

  lemma TakeAppend(s: string, t: string, c: nat)
    ensures Take(s + t, c) == if c < |s| then s[..c] else s + Take(t, c - |s|)
  {
  }

  lemma TakeLiteral(s: string, tail: string, c: nat)
    requires Literal(s).Some? && (tail == [] || tail[0] != '\'')
    ensures var t := ReadLiteral(Take(s + ("'" + tail), c));
      if c <= |s| then t.None? || (t.value.rest == [] && !Quotable(s))
      else t == Some(Token(Literal(s).value, Take(tail, c - |s| - 1)))
  {
    hide ReadLiteral, Literal, Quotable;
    TakeAppend(s, "'" + tail, c);
    if c <= |s| {
      CutLiteral(s, c);
      assert Take("'" + tail, 0) == [] && s[..|s|] == s == s + [];
    } else {
      var rest := Take(tail, c - |s| - 1);
      TakeAppend("'", tail, c - |s|);
      assert rest == [] || rest[0] != '\'';
      hide Take;
      ReadLiteralEnds(s, rest);
    }
  }

  lemma FitAfterPrefix(prefix: string, body: string)
    requires |prefix| <= 99
    ensures prefix <= Fit(prefix + body) && Fit(prefix + body)[|prefix|..] == Take(body, 99 - |prefix|)
  {
    CutAfterPrefix(prefix, body);
  }

  // ----- SELECT

  predicate SelectFits(prefix: string, name: string) { |prefix| + |name| + 1 <= 99 }

  /** A SELECT asks for the literal of its name if it fits; cut, a quotable name leaves no
      statement.  It asks for the name itself exactly when that is quotable and fits. */
  lemma SelectReading(prefix: string, name: string)
    requires |prefix| <= 98
    ensures var r := ReadSelect(prefix, Fit(SelectText(prefix, name)));
      && (Literal(name).Some? && SelectFits(prefix, name) ==> r == Read(Literal(name).value))
      && (Quotable(name) && !SelectFits(prefix, name) ==> r == Broken)
      && (r == Read(name) <==> Quotable(name) && SelectFits(prefix, name))
  {
    hide Quotable, Literal, ReadLiteral;
    var c := 99 - |prefix|;
    FitAfterPrefix(prefix, name + ("'" + ";"));
    QuotableIsExact(name);
    if Literal(name).Some? {
      TakeLiteral(name, ";", c);
    }
    var r := ReadSelect(prefix, Fit(SelectText(prefix, name)));
    if r == Read(name) {
      var kept := Take(name + ("'" + ";"), c);
      assert kept[|kept| - 1] == if c >= |name| + 2 then ';' else '\'';
      var t := ReadLiteral(kept).value;
      if |t.value| + 1 + |t.rest| == |kept| {
        ExactLiteral(kept);
      } else {
        EndsWithQuote(kept);
      }
    }
  }

  /** A literal with nothing after it ends with its closing quote. */
  lemma {:induction false} EndsWithQuote(s: string)
    requires ReadLiteral(s).Some? && ReadLiteral(s).value.rest == []
    ensures |s| > 0 && s[|s| - 1] == '\''
    decreases |s|
  {
    if s[0] == '\'' && |s| == 1 {
    } else {
      EndsWithQuote(if s[0] == '\'' || s[0] == '\\' then s[2..] else s[1..]);
    }
  }

  // ----- INSERT

  lemma NumberIsRead(n: int)
    ensures var fd := ToString(n); fd != [] && Numeric(fd) && IsNumber(fd) && ',' !in fd && fd[0] != '\''
  {
    ToStringWord(n);
    AtoiToString(n);
    var d := Digits(if n < 0 then -n else n);
    assert forall i :: 0 <= i < |d| ==> IsDigit(d[i]);
  }

  lemma QuotedPassword(name: string, fd: string, text: string)
    requires Numeric(fd) && IsNumber(fd)
    ensures ReadAfterNumber(name, fd, ", '" + text) == ReadPassword(name, fd, text)
  {
    hide ReadPassword, Numeric, IsNumber;
    assert (", '" + text)[3..] == text;
  }

  lemma CommasOnly(name: string, fd: string, s: string)
    requires Numeric(fd) && (s == [] || s == "," || s == ", ")
    ensures ReadAfterNumber(name, fd, s) == Broken
  {
    hide ReadPassword, Numeric, IsNumber;
  }

  lemma TakeQuoted(s: string, c: nat)
    ensures var t := Take(", '" + s, c);
      if c < 3 then t == [] || t == "," || t == ", " else t == ", '" + Take(s, c - 3)
  {
    TakeAppend(", '", s, c);
    if c < 3 {
      assert ", '"[..c] == if c == 0 then [] else if c == 1 then "," else ", ";
    }
  }

  lemma TakeClosing(c: int)
    requires c >= 0
    ensures Take(");", c) == if c == 0 then [] else if c == 1 then ")" else ");"
  {
  }

  lemma PasswordReading(name: string, fd: string, password: string, c: nat)
    requires Literal(password).Some? && Numeric(fd) && IsNumber(fd) && fd != []
    ensures ReadAfterNumber(name, fd, Take(AfterNumber(password), c))
      == if c + 1 >= |AfterNumber(password)| then Read(NewRow(name, fd, Literal(password).value)) else Broken
  {
    hide Quotable, Literal, ReadLiteral, Numeric, IsNumber, Take, ReadAfterNumber;
    TakeQuoted(password + ("'" + ");"), c);
    if c >= 3 {
      QuotedPassword(name, fd, Take(password + ("'" + ");"), c - 3));
      TakeLiteral(password, ");", c - 3);
      if c - 3 > |password| { TakeClosing(c - 3 - |password| - 1); }
    } else {
      CommasOnly(name, fd, Take(AfterNumber(password), c));
    }
  }

  lemma NumberReading(name: string, fd: string, password: string, c: nat)
    requires Literal(password).Some? && Numeric(fd) && IsNumber(fd) && fd != [] && ',' !in fd
    ensures ReadAfterName(name, Take(AfterName(fd, password), c))
      == if c + 1 >= |AfterName(fd, password)| then Read(NewRow(name, fd, Literal(password).value)) else Broken
  {
    hide Quotable, Literal, ReadLiteral, ReadAfterName, Take;
    TakeTail(fd, AfterNumber(password), c);
    AfterNumberStarts(password);
    hide AfterNumber;
    if c < 2 {
      CommaOnly(name, Take(AfterName(fd, password), c));
    } else if c - 2 < |fd| {
      CutNumber(name, fd[..c - 2]);
    } else {
      NumberThenPassword(name, fd, password, c - 2 - |fd|);
    }
  }

  lemma TakeTail(fd: string, more: string, c: nat)
    ensures var t := Take(", " + (fd + more), c);
      if c < 2 then t == [] || t == ","
      else if c - 2 < |fd| then t == ", " + fd[..c - 2]
      else t == ", " + (fd + Take(more, c - 2 - |fd|))
  {
    TakeAppend(", ", fd + more, c);
    if c < 2 {
      assert ", "[..c] == if c == 0 then [] else ",";
    } else {
      TakeAppend(fd, more, c - 2);
    }
  }

  lemma CommaOnly(name: string, s: string)
    requires s == [] || s == ","
    ensures ReadAfterName(name, s) == Broken
  {
  }

  lemma NumberThenPassword(name: string, fd: string, password: string, c: nat)
    requires Literal(password).Some? && Numeric(fd) && IsNumber(fd) && fd != [] && ',' !in fd
    ensures ReadAfterName(name, ", " + (fd + Take(AfterNumber(password), c)))
      == if c + 1 >= |AfterNumber(password)| then Read(NewRow(name, fd, Literal(password).value)) else Broken
  {
    hide Quotable, Literal, ReadLiteral, ReadAfterNumber, ReadAfterName;
    AfterNumberStarts(password);
    var rest := Take(AfterNumber(password), c);
    if c == 0 {
      assert fd + rest == fd;
      CutNumber(name, fd);
    } else {
      assert rest[0] == ',';
      WholeNumber(name, fd, rest);
      PasswordReading(name, fd, password, c);
    }
  }

  lemma WholeNumber(name: string, fd: string, rest: string)
    requires ',' !in fd && rest != [] && rest[0] == ','
    ensures ReadAfterName(name, ", " + (fd + rest)) == ReadAfterNumber(name, fd, rest)
  {
    hide ReadAfterNumber;
    UpToStops(fd, ',', rest[1..]);
    assert fd + rest == fd + [','] + rest[1..];
    var s := ", " + (fd + rest);
    assert s[2..] == fd + rest;
    assert s[2 + |fd|..] == rest;
  }

  lemma AfterNumberStarts(password: string)
    ensures |AfterNumber(password)| == |password| + 6 && AfterNumber(password)[0] == ','
  {
  }

  lemma CutNumber(name: string, number: string)
    requires Numeric(number) && ',' !in number
    ensures ReadAfterName(name, ", " + number) == Broken
  {
    assert (", " + number)[2..] == number;
    assert UpTo(number, ',') == number;
  }

  predicate InsertFits(prefix: string, name: string, n: int, password: string) {
    |InsertText(prefix, name, ToString(n), password)| <= 100
  }

  lemma BodyLength(name: string, fd: string, password: string)
    ensures var body := name + ("'" + AfterName(fd, password));
      && |AfterName(fd, password)| == |fd| + |password| + 8 && AfterName(fd, password)[0] == ','
      && |body| == |name| + |fd| + |password| + 9 && body[|body| - 1] == ';'
  {
  }

  /** Texts whose quotes are doubled and whose backslashes are paired are inserted as the
      literals they are, if the whole statement fits; cut, it is no statement. */
  lemma InsertReading(prefix: string, name: string, n: int, password: string)
    requires |prefix| <= 99 && Literal(name).Some? && Literal(password).Some?
    ensures ReadInsert(prefix, Fit(InsertText(prefix, name, ToString(n), password)))
      == if InsertFits(prefix, name, n, password)
         then Read(NewRow(Literal(name).value, ToString(n), Literal(password).value)) else Broken
  {
    var fd := ToString(n);
    var c := 99 - |prefix|;
    BodyLength(name, fd, password);
    NumberIsRead(n);
    hide Quotable, Literal, ReadLiteral, ReadAfterName, Numeric, IsNumber, ToString, Take, AfterName;
    var tail := AfterName(fd, password);
    FitAfterPrefix(prefix, name + ("'" + tail));
    TakeLiteral(name, tail, c);
    if c <= |name| {
      var t := ReadLiteral(Take(name + ("'" + tail), c));
      if t.Some? { CommaOnly(t.value.value, []); }
    } else {
      NumberReading(Literal(name).value, fd, password, c - |name| - 1);
    }
  }

  /** A statement inserts exactly the given name, number and password if and only if both texts
      are quotable and the statement fits. */
  lemma InsertReadsBack(prefix: string, name: string, n: int, password: string)
    requires |prefix| <= 99
    ensures ReadInsert(prefix, Fit(InsertText(prefix, name, ToString(n), password)))
              == Read(NewRow(name, ToString(n), password))
       <==> Quotable(name) && Quotable(password) && InsertFits(prefix, name, n, password)
  {
    hide Quotable, Literal, ReadLiteral;
    var fd := ToString(n);
    QuotableIsExact(name);
    QuotableIsExact(password);
    if Literal(name) == Some(name) && Literal(password) == Some(password) {
      InsertReading(prefix, name, n, password);
    }
    var body := name + ("'" + AfterName(fd, password));
    FitAfterPrefix(prefix, body);
    var kept := Take(body, 99 - |prefix|);
    if ReadInsert(prefix, Fit(prefix + body)) == Read(NewRow(name, fd, password)) {
      NoCharacterLost(kept, body, name, fd, password);
    }
  }

  /** The length of a text but for a semicolon at its end. */
  function Bare(s: string): nat { if s != [] && s[|s| - 1] == ';' then |s| - 1 else |s| }

  /** What is read is no longer than what is there. */
  lemma NothingLostAfterNumber(name: string, number: string, s: string, row: NewRow)
    requires ReadAfterNumber(name, number, s) == Read(row)
    ensures row.username == name && row.fd == number && s != []
    ensures Bare(s) >= |row.password| + 5
    ensures Bare(s) == |row.password| + 5 ==> Quotable(row.password)
  {
    hide Quotable, ReadLiteral, Numeric, IsNumber;
    var text := s[3..];
    var t := ReadLiteral(text).value;
    assert ReadLiteral(text).Some? && row == NewRow(name, number, t.value) && (t.rest == ")" || t.rest == ");");
    hide ReadAfterNumber;
    assert t.rest == text[|text| - |t.rest|..];
    assert t.rest[|t.rest| - 1] == s[|s| - 1];
    if Bare(s) == |row.password| + 5 {
      ExactLiteral(text);
    }
  }

  lemma NothingLostAfterName(name: string, s: string, row: NewRow)
    requires ReadAfterName(name, s) == Read(row)
    ensures row.username == name && s != []
    ensures Bare(s) >= |row.fd| + |row.password| + 7
    ensures Bare(s) == |row.fd| + |row.password| + 7 ==> Quotable(row.password)
  {
    hide Quotable, ReadAfterNumber;
    var number := UpTo(s[2..], ',');
    var rest := s[2 + |number|..];
    NothingLostAfterNumber(name, number, rest, row);
    assert rest[|rest| - 1] == s[|s| - 1];
  }

  lemma NoCharacterLost(kept: string, body: string, name: string, fd: string, password: string)
    requires body == name + ("'" + AfterName(fd, password)) && kept <= body
    requires ReadLiteral(kept).Some?
    requires var t := ReadLiteral(kept).value;
      ReadAfterName(t.value, t.rest) == Read(NewRow(name, fd, password))
    ensures Quotable(name) && Quotable(password) && |kept| + 1 >= |body|
  {
    hide Quotable, ReadLiteral, ReadAfterName;
    var t := ReadLiteral(kept).value;
    NothingLostAfterName(t.value, t.rest, NewRow(name, fd, password));
    BodyLength(name, fd, password);
    assert t.rest[|t.rest| - 1] == kept[|kept| - 1];
    assert |kept| == |body| ==> kept == body;
    ExactLiteral(kept);
  }


  // ----- the four statements of the handlers

  function Asked(q: Query, name: string): Reading<string> {
    ReadSelect(Prefix(q), Fit(SelectText(Prefix(q), name)))
  }

  function Stored(name: string, fd: int, password: string): Reading<NewRow> {
    ReadInsert(InsertPrefix(), Fit(InsertText(InsertPrefix(), name, ToString(fd), password)))
  }

  predicate AskFits(q: Query, name: string) { SelectFits(Prefix(q), name) }

  predicate StoreFits(name: string, fd: int, password: string) {
    InsertFits(InsertPrefix(), name, fd, password)
  }

  /** The literal ends where it was meant to. */
  predicate Closes(s: string) { Literal(s).Some? }

  /** What the database holds for a text that closes. */
  function InDatabase(s: string): string { if Closes(s) then Literal(s).value else s }

  lemma InDatabaseAsTyped(s: string)
    requires Closes(s)
    ensures InDatabase(s) == s <==> Quotable(s)
  {
    QuotableIsExact(s);
  }

  lemma QuotableCloses(s: string)
    requires Quotable(s)
    ensures Closes(s) && InDatabase(s) == s
  {
    QuotableIsExact(s);
  }

  lemma AskedReading(q: Query, name: string)
    ensures Closes(name) && AskFits(q, name) ==> Asked(q, name) == Read(InDatabase(name))
    ensures Quotable(name) && !AskFits(q, name) ==> Asked(q, name) == Broken
    ensures Asked(q, name) == Read(name) <==> Quotable(name) && AskFits(q, name)
  {
    hide Prefix, ReadSelect, SelectText, Quotable, Literal;
    SelectReading(Prefix(q), name);
  }

  lemma StoredReading(name: string, fd: int, password: string)
    ensures Closes(name) && Closes(password) ==>
      Stored(name, fd, password)
        == if StoreFits(name, fd, password) then Read(NewRow(InDatabase(name), ToString(fd), InDatabase(password)))
           else Broken
    ensures Stored(name, fd, password) == Read(NewRow(name, ToString(fd), password))
       <==> Quotable(name) && Quotable(password) && StoreFits(name, fd, password)
  {
    hide InsertPrefix, ReadInsert, InsertText, Quotable, Literal;
    if Closes(name) && Closes(password) {
      InsertReading(InsertPrefix(), name, fd, password);
    }
    InsertReadsBack(InsertPrefix(), name, fd, password);
  }

  /** Name and password have 37 characters to share with the printed number. */
  lemma StoreFitsExactly(name: string, fd: int, password: string)
    ensures StoreFits(name, fd, password) <==> |name| + |ToString(fd)| + |password| <= 37
  {
    hide InsertPrefix;
    BodyLength(name, ToString(fd), password);
  }

  /** A lone quote ends the literal: the statement is another one. */
  lemma LoneQuote(q: Query, a: string, b: string)
    requires Quotable(a) && b != [] && b[0] != '\'' && AskFits(q, a + ("'" + b))
    ensures Asked(q, a + ("'" + b)) == Stray
  {
    hide Prefix, ReadLiteral, Literal, Quotable, Take;
    var body := a + ("'" + b) + ("'" + ";");
    FitAfterPrefix(Prefix(q), body);
    LoneQuoteEndsEarly(a, b, ";", 99 - |Prefix(q)|);
  }

  lemma LoneQuoteEndsEarly(a: string, b: string, tail: string, c: nat)
    requires Quotable(a) && b != [] && b[0] != '\'' && c > |a| + |b| + 1
    ensures var t := ReadLiteral(Take(a + ("'" + b) + ("'" + tail), c));
      t.Some? && |t.value.rest| >= |b| + if c > |a| + |b| + 2 && tail != [] then 2 else 1
  {
    hide ReadLiteral, Literal, Quotable, Take;
    QuotableIsExact(a);
    var more := b + ("'" + tail);
    assert a + ("'" + b) + ("'" + tail) == a + ("'" + more);
    TakeLiteral(a, more, c);
  }

  /** A password with a lone quote makes the INSERT another statement, although its name is asked
      for as it was meant. */
  lemma LoneQuotePassword(name: string, fd: int, a: string, b: string)
    requires Closes(name) && Quotable(a) && b != [] && b[0] != '\'' && StoreFits(name, fd, a + ("'" + b))
    ensures Stored(name, fd, a + ("'" + b)) == Stray
  {
    StoreFitsExactly(name, fd, a + ("'" + b));
    hide InsertPrefix, ReadLiteral, Literal, Quotable, Take, ReadAfterName, AfterNumber, StoreFits;
    AfterNumberStarts(a + ("'" + b));
    var (number, password) := (ToString(fd), a + ("'" + b));
    var tail := AfterName(number, password);
    var c := 99 - |InsertPrefix()|;
    NumberIsRead(fd);
    FitAfterPrefix(InsertPrefix(), name + ("'" + tail));
    TakeLiteral(name, tail, c);
    TakeTail(number, AfterNumber(password), c - |name| - 1);
    LoneQuoteAfterNumber(Literal(name).value, number, a, b, c - |name| - |number| - 3);
  }

  lemma LoneQuoteAfterNumber(name: string, number: string, a: string, b: string, c: nat)
    requires Quotable(a) && b != [] && b[0] != '\'' && c + 1 >= |AfterNumber(a + ("'" + b))|
    requires Numeric(number) && ',' !in number
    ensures ReadAfterName(name, ", " + (number + Take(AfterNumber(a + ("'" + b)), c))) == Stray
  {
    hide ReadLiteral, Literal, Quotable, Take, ReadAfterName, IsNumber;
    var password := a + ("'" + b);
    TakeQuoted(password + ("'" + ");"), c);
    LoneQuoteEndsEarly(a, b, ");", c - 3);
    WholeNumber(name, number, Take(AfterNumber(password), c));
  }

  lemma {:induction false} LiteralAppend(a: string, t: string)
    requires Quotable(a)
    ensures Literal(a + t) == Then(a, Literal(t))
    decreases |a|
  {
    hide Literal, ReadLiteral;
    if a == [] {
      assert a + t == t;
      assert Literal(t).Some? ==> [] + Literal(t).value == Literal(t).value;
    } else if a[0] == '\\' {
      LiteralAppend(a[2..], t);
      PairAppends(a[0], a[1], a[2..], t);
      assert a == [a[0], a[1]] + a[2..];
      ThenThen([a[0], a[1]], a[2..], Literal(t));
    } else {
      LiteralAppend(a[1..], t);
      CharAppends(a[0], a[1..], t);
      assert a == [a[0]] + a[1..];
      ThenThen([a[0]], a[1..], Literal(t));
    }
  }

  lemma ThenThen(s: string, t: string, o: Option<string>)
    ensures Then(s, Then(t, o)) == Then(s + t, o)
  {
    assert o.Some? ==> s + (t + o.value) == s + t + o.value;
  }

  lemma CharAppends(c: char, a: string, t: string)
    requires c != '\'' && c != '\\'
    ensures Literal([c] + a + t) == Then([c], Literal(a + t))
  {
    hide Literal, ReadLiteral;
    ReadChar(c, a + t);
    assert [c] + a + t == [c] + (a + t);
  }

  lemma PairAppends(c: char, d: char, a: string, t: string)
    requires c == '\\' && (d == '%' || d == '_')
    ensures Literal([c, d] + a + t) == Then([c, d], Literal(a + t))
  {
    hide Literal, ReadLiteral;
    ReadPair(c, d, a + t);
    assert [c, d] + a + t == [c, d] + (a + t);
  }

  /** A doubled quote stands for one: the name is asked for and held as another. */
  lemma DoubledQuote(a: string, b: string)
    requires Quotable(a) && Quotable(b)
    ensures Closes(a + ("''" + b)) && InDatabase(a + ("''" + b)) == a + ("'" + b)
  {
    hide Literal, ReadLiteral, Quotable;
    LiteralAppend(a, "''" + b);
    QuotableIsExact(b);
    ReadPair('\'', '\'', b);
    assert "''" + b == ['\'', '\''] + b;
  }
}