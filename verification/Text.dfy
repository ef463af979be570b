/** Strings as the C and C++ libraries see them: NUL-terminated text, splitting on a
    delimiter, tokenising on blanks, and decimal printing and reading. */
module Text {

  /** The part of a string before the first occurrence of a character. */
  function UpTo(s: string, d: char): (p: string)
    ensures d !in p && p <= s
    ensures |p| < |s| ==> s[|p|] == d
    ensures d !in s ==> p == s
  {
    if s == [] || s[0] == d then [] else [s[0]] + UpTo(s[1..], d)
  }

  /** What a `const char*` pointing at the text denotes. */
  function CStr(s: string): string { UpTo(s, '\0') }

  lemma {:induction false} UpToStops(p: string, d: char, rest: string)
    requires d !in p
    ensures UpTo(p + [d] + rest, d) == p
  {
    if p != [] {
      assert (p + [d] + rest)[1..] == p[1..] + [d] + rest;
      UpToStops(p[1..], d, rest);
    }
  }

  // ----- boost::split on one delimiter, without compressing

  function Split(s: string, d: char): (parts: seq<string>)
    ensures |parts| > 0
    decreases |s|
  {
    var p := UpTo(s, d);
    if |p| == |s| then [p] else [p] + Split(s[|p| + 1..], d)
  }

  function Join(parts: seq<string>, d: char): string {
    if parts == [] then []
    else if |parts| == 1 then parts[0]
    else parts[0] + [d] + Join(parts[1..], d)
  }

  lemma SplitCons(p: string, d: char, rest: string)
    requires d !in p
    ensures Split(p + [d] + rest, d) == [p] + Split(rest, d)
  {
    var s := p + [d] + rest;
    UpToStops(p, d, rest);
    assert s[|p| + 1..] == rest;
  }

  lemma SplitWhole(s: string, d: char)
    requires d !in s
    ensures Split(s, d) == [s]
  {
  }

  lemma {:induction false} JoinSplit(s: string, d: char)
    ensures Join(Split(s, d), d) == s
    ensures forall p :: p in Split(s, d) ==> d !in p
    decreases |s|
  {
    var p := UpTo(s, d);
    hide Split, UpTo;
    if |p| == |s| {
      assert p == s;
      SplitWhole(s, d);
    } else {
      var rest := s[|p| + 1..];
      JoinSplit(rest, d);
      assert s == p + [d] + rest;
      SplitCons(p, d, rest);
      JoinCons(p, Split(rest, d), d);
    }
  }

  lemma JoinCons(p: string, parts: seq<string>, d: char)
    requires parts != []
    ensures Join([p] + parts, d) == p + [d] + Join(parts, d)
  {
    assert ([p] + parts)[1..] == parts;
  }

  lemma {:induction false} SplitJoin(parts: seq<string>, d: char)
    requires |parts| > 0 && forall p :: p in parts ==> d !in p
    ensures Split(Join(parts, d), d) == parts
  {
    if |parts| > 1 {
      SplitJoin(parts[1..], d);
      SplitCons(parts[0], d, Join(parts[1..], d));
      assert parts == [parts[0]] + parts[1..];
    }
  }

  // ----- command arguments: runs of non-blanks

  predicate IsWord(s: string) { s != "" && ' ' !in s }

  function Tokens(s: string): seq<string>
    decreases |s|
  {
    if s == [] then []
    else if s[0] == ' ' then Tokens(s[1..])
    else
      var w := UpTo(s, ' ');
      [w] + Tokens(s[|w|..])
  }

  lemma {:induction false} TokensAreWords(s: string)
    ensures forall w :: w in Tokens(s) ==> IsWord(w)
    decreases |s|
  {
    if s != [] {
      TokensAreWords(if s[0] == ' ' then s[1..] else s[|UpTo(s, ' ')|..]);
    }
  }

  lemma TokensCons(w: string, rest: string)
    requires IsWord(w)
    ensures Tokens(w + [' '] + rest) == [w] + Tokens(rest)
  {
    var s := w + [' '] + rest;
    UpToStops(w, ' ', rest);
    assert s[|w|..] == [' '] + rest;
  }

  /** Leading blanks count for nothing, so that after a word a run of them separates like one. */
  lemma {:induction false} TokensSkip(n: nat, s: string)
    ensures Tokens(seq(n, _ => ' ') + s) == Tokens(s)
  {
    if n == 0 {
      assert seq(n, _ => ' ') + s == s;
    } else {
      assert (seq(n, _ => ' ') + s)[1..] == seq(n - 1, _ => ' ') + s;
      TokensSkip(n - 1, s);
    }
  }

  /** Tokenising takes back what joining with blanks put together. */
  lemma {:induction false} TokensJoin(words: seq<string>)
    requires forall w :: w in words ==> IsWord(w)
    ensures Tokens(Join(words, ' ')) == words
  {
    if words != [] {
      var w := words[0];
      assert IsWord(w);
      TokensJoin(words[1..]);
      assert words == [w] + words[1..];
      if |words| > 1 {
        TokensCons(w, Join(words[1..], ' '));
      } else {
        assert Join(words, ' ')[|w|..] == [];
      }
    }
  }

  // ----- to_string and atoi

  predicate IsDigit(c: char) { '0' <= c <= '9' }

  function DigitChar(d: nat): (c: char)
    requires d < 10
    ensures IsDigit(c) && DigitValue(c) == d
  {
    d as char + '0'
  }

  function DigitValue(c: char): nat
    requires IsDigit(c)
  {
    c as int - '0' as int
  }

  function Digits(n: nat): (s: string)
    ensures |s| > 0 && forall i :: 0 <= i < |s| ==> IsDigit(s[i])
  {
    if n < 10 then [DigitChar(n)] else Digits(n / 10) + [DigitChar(n % 10)]
  }

  function ToString(n: int): string {
    if n < 0 then "-" + Digits(-n) else Digits(n)
  }

  /** The longest prefix of digits. */
  function LeadingDigits(s: string): (d: string)
    ensures forall i :: 0 <= i < |d| ==> IsDigit(d[i])
  {
    if s == [] || !IsDigit(s[0]) then [] else [s[0]] + LeadingDigits(s[1..])
  }

  function Value(s: string): nat
    requires forall i :: 0 <= i < |s| ==> IsDigit(s[i])
  {
    if s == [] then 0 else 10 * Value(s[..|s| - 1]) + DigitValue(s[|s| - 1])
  }

  predicate IsSpace(c: char) { c == ' ' || '\t' <= c <= '\r' }

  function Atoi(s: string): int {
    if s == [] then 0
    else if IsSpace(s[0]) then Atoi(s[1..])
    else if s[0] == '-' then 0 - Value(LeadingDigits(s[1..]))
    else if s[0] == '+' then Value(LeadingDigits(s[1..]))
    else Value(LeadingDigits(s))
  }

  lemma {:induction false} ValueOfDigits(n: nat)
    ensures Value(Digits(n)) == n
  {
    if n >= 10 {
      ValueOfDigits(n / 10);
      assert Digits(n)[..|Digits(n)| - 1] == Digits(n / 10);
    }
  }

  lemma {:induction false} AllLeading(s: string)
    requires forall i :: 0 <= i < |s| ==> IsDigit(s[i])
    ensures LeadingDigits(s) == s
  {
    if s != [] {
      AllLeading(s[1..]);
    }
  }

  /** `atoi` undoes `to_string` on every integer. */
  lemma AtoiToString(n: int)
    ensures Atoi(ToString(n)) == n
  {
    var d := Digits(if n < 0 then -n else n);
    AllLeading(d);
    ValueOfDigits(if n < 0 then -n else n);
    if n < 0 {
      assert ToString(n)[1..] == d;
    } else {
      assert IsDigit(d[0]);
    }
  }

  lemma {:induction false} LeadingStops(d: string, rest: string)
    requires (forall i :: 0 <= i < |d| ==> IsDigit(d[i])) && (rest == [] || !IsDigit(rest[0]))
    ensures LeadingDigits(d + rest) == d
  {
    if d == [] {
      assert d + rest == rest;
    } else {
      assert (d + rest)[1..] == d[1..] + rest;
      LeadingStops(d[1..], rest);
    }
  }

  lemma {:induction false} AtoiSkips(blanks: string, text: string)
    requires forall i :: 0 <= i < |blanks| ==> IsSpace(blanks[i])
    ensures Atoi(blanks + text) == Atoi(text)
  {
    if blanks == [] {
      assert blanks + text == text;
    } else {
      assert (blanks + text)[1..] == blanks[1..] + text;
      AtoiSkips(blanks[1..], text);
    }
  }

  /** `atoi` skips blanks, reads one sign and the digits up to the first other character, and gives
      0 where there are none. */
  lemma AtoiReads(blanks: string, n: nat, rest: string)
    requires forall i :: 0 <= i < |blanks| ==> IsSpace(blanks[i])
    requires rest == [] || !IsDigit(rest[0])
    ensures Atoi(blanks + (Digits(n) + rest)) == n
    ensures Atoi(blanks + (['+'] + (Digits(n) + rest))) == n
    ensures Atoi(blanks + (['-'] + (Digits(n) + rest))) == 0 - n
    ensures rest != [] && !IsSpace(rest[0]) && rest[0] !in "+-" ==> Atoi(blanks + rest) == 0
  {
    hide Atoi, Digits, LeadingDigits, Value;
    var text := Digits(n) + rest;
    AtoiSkips(blanks, text);
    AtoiSkips(blanks, ['+'] + text);
    AtoiSkips(blanks, ['-'] + text);
    AtoiSkips(blanks, rest);
    LeadingStops(Digits(n), rest);
    ValueOfDigits(n);
    AtoiAfterBlanks(text);
    AtoiOfNothing(rest);
  }

  lemma AtoiAfterBlanks(text: string)
    requires text != [] && IsDigit(text[0])
    ensures Atoi(text) == Atoi(['+'] + text) == Value(LeadingDigits(text))
    ensures Atoi(['-'] + text) == 0 - Value(LeadingDigits(text))
  {
    hide LeadingDigits, Value;
    assert (['+'] + text)[1..] == text && (['-'] + text)[1..] == text;
  }

  lemma AtoiOfNothing(rest: string)
    requires rest == [] || !IsDigit(rest[0])
    ensures rest != [] && !IsSpace(rest[0]) && rest[0] !in "+-" ==> Atoi(rest) == 0
  {
    LeadingStops([], rest);
    assert [] + rest == rest;
  }

  lemma ToStringInjective(m: int, n: int)
    requires ToString(m) == ToString(n)
    ensures m == n
  {
    AtoiToString(m);
    AtoiToString(n);
  }

  /** A printed number is one word, and starts like no name of a key. */
  lemma ToStringWord(n: int)
    ensures IsWord(ToString(n))
    ensures ToString(n)[0] == '-' || IsDigit(ToString(n)[0])
  {
    var d := Digits(if n < 0 then -n else n);
    assert IsDigit(d[0]);
    assert forall i :: 0 <= i < |d| ==> IsDigit(d[i]);
  }

  lemma OneDigitMore(n: nat)
    ensures |Digits(n)| == if n < 10 then 1 else |Digits(n / 10)| + 1
  {
  }

  lemma FewDigits(n: nat)
    requires n < 100_000
    ensures |Digits(n)| <= 5
  {
    hide Digits;
    var (a, b, c, d) := (n / 10, n / 100, n / 1000, n / 10000);
    assert a / 10 == b && b / 10 == c && c / 10 == d;
    OneDigitMore(n);
    OneDigitMore(a);
    OneDigitMore(b);
    OneDigitMore(c);
    OneDigitMore(d);
  }

  /** Ten digits suffice for 32 bits. */
  lemma TenDigits(n: nat)
    requires n < 10_000_000_000
    ensures |Digits(n)| <= 10
  {
    hide Digits;
    var (a, b, c, d, e) := (n / 10, n / 100, n / 1000, n / 10000, n / 100000);
    assert a / 10 == b && b / 10 == c && c / 10 == d && d / 10 == e;
    FewDigits(e);
    OneDigitMore(n);
    OneDigitMore(a);
    OneDigitMore(b);
    OneDigitMore(c);
    OneDigitMore(d);
  }

  lemma ToStringLength(n: int)
    requires -0x8000_0000 <= n < 0x8000_0000
    ensures |ToString(n)| <= 11
  {
    hide Digits;
    TenDigits(if n < 0 then -n else n);
  }

  // ----- texts as formats, and vsnprintf into 100 bytes

  /** What `snprintf` writes of a format without arguments: a doubled percent sign becomes one.
      Any other directive is undefined; it stands here for itself. */
  function Printed(format: string): (t: string)
    ensures |t| <= |format| && ('\0' !in format ==> '\0' !in t)
    decreases |format|
  {
    if format == [] then []
    else if |format| > 1 && format[0] == '%' && format[1] == '%' then "%" + Printed(format[2..])
    else [format[0]] + Printed(format[1..])
  }

  /** Every percent sign is doubled, so that the format is defined without arguments. */
  predicate Defined(format: string)
    decreases |format|
  {
    format == [] ||
    (if format[0] == '%' then |format| > 1 && format[1] == '%' && Defined(format[2..]) else Defined(format[1..]))
  }

  /** A defined format prints as itself exactly when it holds no percent sign. */
  lemma {:induction false} PrintedAsGiven(format: string)
    ensures Defined(format) && Printed(format) == format <==> '%' !in format
    decreases |format|
  {
    if format != [] {
      if format[0] != '%' {
        PrintedAsGiven(format[1..]);
        assert format == [format[0]] + format[1..];
      }
    }
  }

  /** One step of the printer, on a character or on a doubled percent sign. */
  lemma PrintChar(c: char, rest: string)
    requires c == '%' && rest != [] ==> rest[0] != '%'
    ensures Printed([c] + rest) == [c] + Printed(rest)
  {
    assert ([c] + rest)[1..] == rest;
  }

  lemma PrintPair(rest: string)
    ensures Printed(['%', '%'] + rest) == "%" + Printed(rest)
  {
    assert (['%', '%'] + rest)[2..] == rest;
  }

  lemma {:induction false} PrintedAppend(p: string, rest: string)
    requires '%' !in p
    ensures Printed(p + rest) == p + Printed(rest)
  {
    hide Printed;
    if p == [] {
      assert p + rest == rest;
    } else {
      PrintedAppend(p[1..], rest);
      PrintChar(p[0], p[1..] + rest);
      assert p + rest == [p[0]] + (p[1..] + rest);
    }
  }

  /** A blank separates what is printed. */
  lemma {:induction false} PrintedSplit(a: string, b: string)
    ensures Printed(a + ([' '] + b)) == Printed(a) + ([' '] + Printed(b))
    decreases |a|
  {
    hide Printed;
    var more := [' '] + b;
    if a == [] {
      PrintChar(' ', b);
      NothingPrints();
      assert a + more == more;
    } else if |a| > 1 && a[0] == '%' && a[1] == '%' {
      PrintedSplit(a[2..], b);
      PrintPair(a[2..]);
      PrintPair(a[2..] + more);
      assert a == ['%', '%'] + a[2..] && a + more == ['%', '%'] + (a[2..] + more);
    } else {
      PrintedSplit(a[1..], b);
      PrintChar(a[0], a[1..]);
      PrintChar(a[0], a[1..] + more);
      assert a == [a[0]] + a[1..] && a + more == [a[0]] + (a[1..] + more);
    }
  }

  lemma NothingPrints()
    ensures Printed([]) == []
  {
  }

  /** Printing makes and takes no blank, and empties no text. */
  lemma {:induction false} PrintedWord(s: string)
    ensures IsWord(Printed(s)) <==> IsWord(s)
    ensures ' ' in Printed(s) <==> ' ' in s
    decreases |s|
  {
    if s != [] {
      if |s| > 1 && s[0] == '%' && s[1] == '%' {
        PrintedWord(s[2..]);
        assert s == ['%', '%'] + s[2..];
      } else {
        PrintedWord(s[1..]);
        assert s == [s[0]] + s[1..];
      }
    }
  }

  function PrintedAll(words: seq<string>): seq<string> {
    if words == [] then [] else [Printed(words[0])] + PrintedAll(words[1..])
  }

  lemma {:induction false} PrintedJoin(words: seq<string>)
    ensures Printed(Join(words, ' ')) == Join(PrintedAll(words), ' ')
  {
    if |words| > 1 {
      PrintedSplit(words[0], Join(words[1..], ' '));
      PrintedJoin(words[1..]);
      assert Join(words, ' ') == words[0] + ([' '] + Join(words[1..], ' '));
      assert PrintedAll(words)[1..] == PrintedAll(words[1..]);
    }
  }

  lemma {:induction false} PrintedWords(words: seq<string>)
    requires forall w :: w in words ==> IsWord(w)
    ensures forall w :: w in PrintedAll(words) ==> IsWord(w)
  {
    if words != [] {
      PrintedWord(words[0]);
      assert words[0] in words;
      PrintedWords(words[1..]);
    }
  }

  /** Joined words, printed as a format, are tokenised into the printed words. */
  lemma TokensOfPrinted(words: seq<string>)
    requires forall w :: w in words ==> IsWord(w)
    ensures Tokens(Printed(Join(words, ' '))) == PrintedAll(words)
  {
    PrintedJoin(words);
    PrintedWords(words);
    TokensJoin(PrintedAll(words));
  }

  lemma {:induction false} PlainWordsPrint(words: seq<string>)
    requires forall w :: w in words ==> '%' !in w
    ensures PrintedAll(words) == words
  {
    if words != [] {
      assert words[0] in words;
      PrintedAsGiven(words[0]);
      PlainWordsPrint(words[1..]);
    }
  }

  /** What is left of a text: 99 characters and the terminator. */
  function Fit(text: string): string { if |text| > 99 then text[..99] else text }

  lemma CutAfterPrefix(prefix: string, rest: string)
    requires |prefix| <= 99
    ensures Fit(prefix + rest) == prefix + if |rest| > 99 - |prefix| then rest[..99 - |prefix|] else rest
  {
  }
}
