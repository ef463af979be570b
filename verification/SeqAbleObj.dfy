/** The message record: five integers and a 64-byte buffer that holds either one text or a name
    and a password in fixed cells, and its copy to the wire and back.

    A `char` of code below 256 stands for a byte of the buffer. */
module SeqAbleObj {
  import opened Text

  const MAX_TRANS_MSG_LEN: nat := 64
  const NAME_MAX_LEN: nat := 24
  const PASSWORD_MAX_LEN: nat := MAX_TRANS_MSG_LEN - NAME_MAX_LEN

  // message types
  const MSG_CMD := 0
  const MSG_TALK := 1
  const MSG_REG := 3
  const MSG_REG_ACCEPT := 4
  const MSG_REG_REFUSE := 5
  const MSG_LOGIN := 6
  const MSG_LOGIN_ACCEPT := 7
  const MSG_LOGIN_REFUSE := 8
  const MSG_LOGOUT := 9
  const MSG_ASK_FOR_FRIEND := 10
  const MSG_ASK_FOR_FRIEND_NOT_FOUND := 11
  const MSG_ASK_FOR_FRIEND_ACCEPT := 12
  const MSG_BUTTON := 14

  function Zeros(n: nat): (s: string)
    ensures |s| == n && forall i :: 0 <= i < n ==> s[i] == '\0'
  {
    seq(n, _ => '\0')
  }

  type Buffer = s: string | |s| == 64 witness Zeros(64)

  datatype Msg = Msg(msgType: int, len: int, id: int, recverId: int, fd: int, text: Buffer)

  const ZERO_MSG: Msg := Msg(0, 0, 0, 0, 0, Zeros(64))

  function GetName(m: Msg): string { CStr(m.text) }

  function GetPasswd(m: Msg): string { CStr(m.text[NAME_MAX_LEN..]) }

  /** A cleared cell of n bytes holding a C string. */
  function Cell(s: string, n: nat): (c: string)
    requires |CStr(s)| < n
    ensures |c| == n
  {
    CStr(s) + Zeros(n - |CStr(s)|)
  }

  /** What `setName` and `setPasswd` print of a C string. */
  function Formatted(s: string): (t: string)
    ensures CStr(t) == t && |t| <= |CStr(s)|
  {
    Printed(CStr(s))
  }

  /** `setMsg`: the whole buffer is one cell. */
  function WithMsg(m: Msg, s: string): Msg {
    if |CStr(s)| >= MAX_TRANS_MSG_LEN then m else m.(text := Cell(s, MAX_TRANS_MSG_LEN))
  }

  /** `setName(const char*)`: the first 24 bytes. */
  function WithName(m: Msg, s: string): Msg {
    if |CStr(s)| >= NAME_MAX_LEN then m
    else m.(text := Cell(Formatted(s), NAME_MAX_LEN) + m.text[NAME_MAX_LEN..])
  }

  /** `setPasswd(const char*)`: the last 40 bytes. */
  function WithPasswd(m: Msg, s: string): Msg {
    if |CStr(s)| >= PASSWORD_MAX_LEN then m
    else m.(text := m.text[..NAME_MAX_LEN] + Cell(Formatted(s), PASSWORD_MAX_LEN))
  }

  function WithNamePasswd(m: Msg, name: string, passwd: string): Msg {
    if |CStr(name)| >= NAME_MAX_LEN || |CStr(passwd)| >= PASSWORD_MAX_LEN then m
    else m.(text := Cell(Formatted(name), NAME_MAX_LEN) + Cell(Formatted(passwd), PASSWORD_MAX_LEN))
  }

  // ----- the buffer layout

  lemma {:induction false} UpToWithin(a: string, b: string, d: char)
    requires d in a
    ensures UpTo(a + b, d) == UpTo(a, d)
  {
    if a[0] != d {
      assert (a + b)[1..] == a[1..] + b;
      UpToWithin(a[1..], b, d);
    }
  }

  lemma CStrCell(s: string, n: nat, rest: string)
    requires |CStr(s)| < n
    ensures CStr(Cell(s, n) + rest) == CStr(s)
  {
    var p := CStr(s);
    assert Cell(s, n) + rest == p + ['\0'] + (Zeros(n - |p| - 1) + rest);
    UpToStops(p, '\0', Zeros(n - |p| - 1) + rest);
  }

  datatype Setter =
    | Message(s: string)
    | Name(s: string)
    | Passwd(s: string)
    | NamePasswd(name: string, passwd: string)

  function Call(m: Msg, c: Setter): Msg {
    match c
    case Message(s) => WithMsg(m, s)
    case Name(s) => WithName(m, s)
    case Passwd(s) => WithPasswd(m, s)
    case NamePasswd(name, passwd) => WithNamePasswd(m, name, passwd)
  }

  function Calls(m: Msg, run: seq<Setter>): Msg {
    if run == [] then m else Call(Calls(m, run[..|run| - 1]), run[|run| - 1])
  }

  lemma {:induction false} LastByteStaysZero(run: seq<Setter>)
    ensures Calls(ZERO_MSG, run).text[63] == '\0'
  {
    if run != [] {
      LastByteStaysZero(run[..|run| - 1]);
    }
  }

  /** Over any sequence of setter calls from a zeroed object, every text read from the buffer
      ends inside it. */
  lemma AlwaysTerminated(run: seq<Setter>)
    ensures var m := Calls(ZERO_MSG, run);
      |GetName(m)| < MAX_TRANS_MSG_LEN && |GetPasswd(m)| < PASSWORD_MAX_LEN
  {
    LastByteStaysZero(run);
    var m := Calls(ZERO_MSG, run);
    assert m.text[NAME_MAX_LEN..][39] == '\0';
    assert '\0' in m.text && '\0' in m.text[NAME_MAX_LEN..];
  }

  /** Setting one cell never touches the other, and a refused setter changes nothing. */
  lemma CellsAreSeparate(m: Msg, s: string)
    ensures WithName(m, s).text[NAME_MAX_LEN..] == m.text[NAME_MAX_LEN..]
    ensures WithPasswd(m, s).text[..NAME_MAX_LEN] == m.text[..NAME_MAX_LEN]
    ensures GetPasswd(WithName(m, s)) == GetPasswd(m)
    ensures GetName(WithName(m, s)) == (if |CStr(s)| < NAME_MAX_LEN then Formatted(s) else GetName(m))
    ensures GetPasswd(WithPasswd(m, s)) == (if |CStr(s)| < PASSWORD_MAX_LEN then Formatted(s) else GetPasswd(m))
    ensures WithMsg(m, s) != m ==> |CStr(s)| < MAX_TRANS_MSG_LEN && GetName(WithMsg(m, s)) == CStr(s)
  {
    if |CStr(s)| < NAME_MAX_LEN {
      CStrCell(Formatted(s), NAME_MAX_LEN, m.text[NAME_MAX_LEN..]);
    }
    if |CStr(s)| < PASSWORD_MAX_LEN {
      var cell := Cell(Formatted(s), PASSWORD_MAX_LEN);
      CStrCell(Formatted(s), PASSWORD_MAX_LEN, []);
      assert cell + [] == cell && WithPasswd(m, s).text[NAME_MAX_LEN..] == cell;
    }
    if |CStr(s)| < MAX_TRANS_MSG_LEN {
      CStrCell(s, MAX_TRANS_MSG_LEN, []);
      assert Cell(s, MAX_TRANS_MSG_LEN) + [] == Cell(s, MAX_TRANS_MSG_LEN);
    }
  }

  /** A text over a cleared buffer: the text, and zeros behind it. */
  predicate Holds(cell: string, text: string) {
    |text| < |cell| && cell[..|text|] == text && forall i :: |text| <= i < |cell| ==> cell[i] == '\0'
  }

  /** `setMsg` takes exactly the texts below 64 bytes, clears what was there before and is read
      back by `getMsg`; a longer text is refused and changes nothing. */
  lemma MessageIsHeld(m: Msg, s: string)
    ensures var q := WithMsg(m, s);
      && (|CStr(s)| < MAX_TRANS_MSG_LEN ==> Holds(q.text, CStr(s)) && GetName(q) == CStr(s))
      && (|CStr(s)| >= MAX_TRANS_MSG_LEN ==> q == m)
  {
    if |CStr(s)| < MAX_TRANS_MSG_LEN {
      CStrCell(s, MAX_TRANS_MSG_LEN, []);
      assert Cell(s, MAX_TRANS_MSG_LEN) + [] == Cell(s, MAX_TRANS_MSG_LEN);
    }
  }

  /** An accepted name or password fills its cell, with nothing of the old text left; a refused
      one changes nothing, and a pair is entered whole or not at all. */
  lemma CellsAreHeld(m: Msg, name: string, passwd: string)
    ensures var (nameFits, passwdFits) := (|CStr(name)| < NAME_MAX_LEN, |CStr(passwd)| < PASSWORD_MAX_LEN);
      && (nameFits ==> Holds(WithName(m, name).text[..NAME_MAX_LEN], Formatted(name)))
      && (passwdFits ==> Holds(WithPasswd(m, passwd).text[NAME_MAX_LEN..], Formatted(passwd)))
      && (!nameFits ==> WithName(m, name) == m) && (!passwdFits ==> WithPasswd(m, passwd) == m)
      && WithNamePasswd(m, name, passwd)
           == if nameFits && passwdFits then WithPasswd(WithName(m, name), passwd) else m
  {
    hide Formatted;
    CellHolds(name, NAME_MAX_LEN);
    CellHolds(passwd, PASSWORD_MAX_LEN);
    if |CStr(name)| < NAME_MAX_LEN {
      assert WithName(m, name).text[..NAME_MAX_LEN] == Cell(Formatted(name), NAME_MAX_LEN);
    }
    if |CStr(passwd)| < PASSWORD_MAX_LEN {
      var cell := Cell(Formatted(passwd), PASSWORD_MAX_LEN);
      assert (m.text[..NAME_MAX_LEN] + cell)[NAME_MAX_LEN..] == cell;
      assert WithPasswd(m, passwd).text[NAME_MAX_LEN..] == cell;
    }
  }

  lemma CellHolds(s: string, n: nat)
    ensures |CStr(s)| < n ==> Holds(Cell(Formatted(s), n), Formatted(s))
  {
  }

  /** The setters write only the buffer. */
  lemma SettersKeepFields(m: Msg, c: Setter)
    ensures Call(m, c).(text := m.text) == m
  {
    hide Formatted, CStr, Cell;
  }

  /** A name that ends inside its cell survives a change of the password. */
  lemma PasswdKeepsTerminatedName(m: Msg, s: string)
    requires '\0' in m.text[..NAME_MAX_LEN]
    ensures GetName(WithPasswd(m, s)) == GetName(m)
  {
    UpToWithin(m.text[..NAME_MAX_LEN], m.text[NAME_MAX_LEN..], '\0');
    assert m.text == m.text[..NAME_MAX_LEN] + m.text[NAME_MAX_LEN..];
    if |CStr(s)| < PASSWORD_MAX_LEN {
      UpToWithin(m.text[..NAME_MAX_LEN], Cell(Formatted(s), PASSWORD_MAX_LEN), '\0');
    }
  }

  /** The abstract content of a buffer used as a name and a password. */
  datatype Credentials = Credentials(name: string, passwd: string)

  /** What one setter call enters, if it is accepted. */
  function Enter(e: Credentials, c: Setter): Credentials {
    match c
    case Message(_) => e
    case Name(s) => if |CStr(s)| < NAME_MAX_LEN then e.(name := Formatted(s)) else e
    case Passwd(s) => if |CStr(s)| < PASSWORD_MAX_LEN then e.(passwd := Formatted(s)) else e
    case NamePasswd(n, p) =>
      if |CStr(n)| < NAME_MAX_LEN && |CStr(p)| < PASSWORD_MAX_LEN then Credentials(Formatted(n), Formatted(p)) else e
  }

  function Entered(run: seq<Setter>): Credentials {
    if run == [] then Credentials("", "") else Enter(Entered(run[..|run| - 1]), run[|run| - 1])
  }

  /** Without `setMsg`, the buffer is a name and a password: whatever the order of the calls,
      each getter returns the text of the last accepted call for its cell. */
  lemma {:induction false} BufferHoldsCredentials(run: seq<Setter>)
    requires forall c :: c in run ==> !c.Message?
    ensures var m := Calls(ZERO_MSG, run);
      Credentials(GetName(m), GetPasswd(m)) == Entered(run) && '\0' in m.text[..NAME_MAX_LEN]
  {
    if run == [] {
      assert ZERO_MSG.text[..NAME_MAX_LEN][0] == '\0';
    } else {
      var n := |run| - 1;
      BufferHoldsCredentials(run[..n]);
      CallHoldsCredentials(Calls(ZERO_MSG, run[..n]), run[n]);
    }
  }

  lemma CallHoldsCredentials(m: Msg, c: Setter)
    requires !c.Message? && '\0' in m.text[..NAME_MAX_LEN]
    ensures '\0' in Call(m, c).text[..NAME_MAX_LEN]
    ensures Credentials(GetName(Call(m, c)), GetPasswd(Call(m, c)))
         == Enter(Credentials(GetName(m), GetPasswd(m)), c)
  {
    match c
    case Name(s) =>
      CellsAreSeparate(m, s);
      if |CStr(s)| < NAME_MAX_LEN { assert Call(m, c).text[..NAME_MAX_LEN][|Formatted(s)|] == '\0'; }
    case Passwd(s) =>
      CellsAreSeparate(m, s);
      PasswdKeepsTerminatedName(m, s);
    case NamePasswd(name, passwd) =>
      if |CStr(name)| < NAME_MAX_LEN && |CStr(passwd)| < PASSWORD_MAX_LEN {
        SetBoth(m, name, passwd);
      }
  }

  lemma SetBoth(m: Msg, name: string, passwd: string)
    requires |CStr(name)| < NAME_MAX_LEN && |CStr(passwd)| < PASSWORD_MAX_LEN
    ensures var q := WithNamePasswd(m, name, passwd);
      GetName(q) == Formatted(name) && GetPasswd(q) == Formatted(passwd) && '\0' in q.text[..NAME_MAX_LEN]
  {
    var q := WithNamePasswd(m, name, passwd);
    var cell := Cell(Formatted(passwd), PASSWORD_MAX_LEN);
    CStrCell(Formatted(name), NAME_MAX_LEN, cell);
    CStrCell(Formatted(passwd), PASSWORD_MAX_LEN, []);
    assert cell + [] == cell && q.text[NAME_MAX_LEN..] == cell;
    assert q.text[..NAME_MAX_LEN][|Formatted(name)|] == '\0';
  }

  // ----- the wire

  const TWO32: int := 0x1_0000_0000

  predicate IsInt32(n: int) { -0x8000_0000 <= n < 0x8000_0000 }

  predicate IsUint32(n: int) { 0 <= n < TWO32 }

  /** The four bytes of a 32-bit integer, low byte first, two's complement. */
  function Bytes32(n: int): (b: string)
    ensures |b| == 4
  {
    var u := n % TWO32;
    [(u % 256) as char, (u / 256 % 256) as char, (u / 65536 % 256) as char, (u / 16777216 % 256) as char]
  }

  function Uint32At(buff: string, at: nat): int
    requires at + 4 <= |buff|
  {
    buff[at] as int + 256 * buff[at + 1] as int + 65536 * buff[at + 2] as int + 16777216 * buff[at + 3] as int
  }

  function Int32At(buff: string, at: nat): int
    requires at + 4 <= |buff|
  {
    var u := Uint32At(buff, at);
    if u < 0x8000_0000 then u else u - TWO32
  }

  const OBJ_SIZE: nat := 84

  /** The bytes of the object, field by field. */
  function Record(m: Msg): (b: string)
    ensures |b| == OBJ_SIZE
  {
    Bytes32(m.msgType) + Bytes32(m.len) + Bytes32(m.id) + Bytes32(m.recverId) + Bytes32(m.fd) + m.text
  }

  /** `transBuff2Obj`: every field but `len` comes from the buffer. */
  function TransBuff2Obj(m: Msg, buff: string): Msg
    requires |buff| >= OBJ_SIZE
  {
    Msg(Uint32At(buff, 0), m.len, Int32At(buff, 8), Int32At(buff, 12), Int32At(buff, 16), buff[20..OBJ_SIZE])
  }

  lemma BytesRoundTrip(n: int, before: string, after: string)
    ensures IsUint32(n) ==> Uint32At(before + Bytes32(n) + after, |before|) == n
    ensures IsInt32(n) ==> Int32At(before + Bytes32(n) + after, |before|) == n
  {
    var u := n % TWO32;
    var buff := before + Bytes32(n) + after;
    assert forall k :: 0 <= k < 4 ==> buff[|before| + k] == Bytes32(n)[k];
    assert u / 256 / 256 == u / 65536 && u / 65536 / 256 == u / 16777216;
    assert Uint32At(buff, |before|) == u;
  }

  /** Copying an object out and back restores every field but `len`, whatever follows the record
      in the buffer. */
  lemma WireRoundTrip(m: Msg, receiver: Msg, rest: string)
    requires IsUint32(m.msgType) && IsInt32(m.id) && IsInt32(m.recverId) && IsInt32(m.fd)
    ensures TransBuff2Obj(receiver, Record(m) + rest) == m.(len := receiver.len)
  {
    var buff := Record(m) + rest;
    var (t, l, i, r, f) := (Bytes32(m.msgType), Bytes32(m.len), Bytes32(m.id), Bytes32(m.recverId), Bytes32(m.fd));
    var tail := m.text + rest;
    assert Record(m) == t + l + i + r + f + m.text;
    hide Bytes32, Uint32At, Int32At, Record;
    FieldsApart(t, l, i, r, f, m.text, rest);
    BytesRoundTrip(m.msgType, [], l + i + r + f + tail);
    BytesRoundTrip(m.id, t + l, r + f + tail);
    BytesRoundTrip(m.recverId, t + l + i, f + tail);
    BytesRoundTrip(m.fd, t + l + i + r, tail);
  }

  /** The places of the fields in the record. */
  lemma FieldsApart(t: string, l: string, i: string, r: string, f: string, text: Buffer, rest: string)
    requires |t| == |l| == |i| == |r| == |f| == 4
    ensures var buff := t + l + i + r + f + text + rest;
      var tail := text + rest;
      && buff == [] + t + (l + i + r + f + tail) && buff == (t + l) + i + (r + f + tail)
      && buff == (t + l + i) + r + (f + tail) && buff == (t + l + i + r) + f + tail
      && buff[20..OBJ_SIZE] == text
  {
    var head := t + l + i + r + f;
    assert head + text + rest == head + (text + rest);
  }

  /** The offsets of the fields on the wire: what a receiver finds at each of them. */
  lemma RecordLayout(m: Msg)
    requires IsUint32(m.msgType) && IsUint32(m.len) && IsInt32(m.id) && IsInt32(m.recverId) && IsInt32(m.fd)
    ensures var b := Record(m);
      && Uint32At(b, 0) == m.msgType && Uint32At(b, 4) == m.len && Int32At(b, 8) == m.id
      && Int32At(b, 12) == m.recverId && Int32At(b, 16) == m.fd && b[20..] == m.text
  {
    WireRoundTrip(m, ZERO_MSG, []);
    var b := Record(m);
    assert b + [] == b;
    var (t, l) := (Bytes32(m.msgType), Bytes32(m.len));
    var rest := Bytes32(m.id) + Bytes32(m.recverId) + Bytes32(m.fd) + m.text;
    BytesRoundTrip(m.len, t, rest);
    assert b == t + l + rest;
    var q := TransBuff2Obj(ZERO_MSG, b);
    hide Bytes32, Uint32At, Int32At, Record;
    assert q == m.(len := 0);
    assert b[20..OBJ_SIZE] == b[20..];
  }

  // ----- the object

  /** A text copied over the front of a cleared cell fills that cell. */
  lemma PasteOver(text: string, n: nat, rest: string)
    requires |text| < n
    ensures text + (Zeros(n) + rest)[|text|..] == text + Zeros(n - |text|) + rest
  {
    assert (Zeros(n) + rest)[|text|..] == Zeros(n - |text|) + rest;
  }

  /** The record as the program changes it: fields and buffer in place. */
  class TransObj {
    var msgType: int
    var len: int
    var id: int
    var recverId: int
    var fd: int
    const msg: array<char>

    ghost predicate Valid()
      reads this
    {
      msg.Length == MAX_TRANS_MSG_LEN
    }

    ghost function Value(): Msg
      requires Valid()
      reads this, msg
    {
      Msg(msgType, len, id, recverId, fd, msg[..])
    }

    constructor ()
      ensures Valid() && fresh(msg) && Value() == ZERO_MSG
    {
      msgType, len, id, recverId, fd := 0, 0, 0, 0, 0;
      msg := new char[MAX_TRANS_MSG_LEN](_ => '\0');
      new;
      assert msg[..] == Zeros(64);
    }

    /** The constructor with five arguments leaves the buffer as the memory was. */
    constructor Unset(id: int, recverId: int, msgType: int, len: int, fd: int, memory: Buffer)
      ensures Valid() && fresh(msg) && Value() == Msg(msgType, len, id, recverId, fd, memory)
    {
      this.id, this.recverId, this.msgType, this.len, this.fd := id, recverId, msgType, len, fd;
      msg := new char[MAX_TRANS_MSG_LEN](i requires 0 <= i < 64 => memory[i]);
      new;
      assert msg[..] == memory;
    }

    /** The value of the object at this moment, as a push of it shares it. */
    method Snapshot() returns (m: Msg)
      requires Valid()
      ensures m == Value()
    {
      m := Msg(msgType, len, id, recverId, fd, msg[..]);
    }

    /** `memset(msg + from, 0, n)` */
    method Clear(from: nat, n: nat)
      requires Valid() && from + n <= MAX_TRANS_MSG_LEN
      modifies msg
      ensures msg[..] == old(msg[..from]) + Zeros(n) + old(msg[from + n..])
    {
      for i := 0 to n
        invariant msg[..from] == old(msg[..from]) && msg[from + n..] == old(msg[from + n..])
        invariant forall k :: from <= k < from + i ==> msg[k] == '\0'
      {
        msg[from + i] := '\0';
      }
      assert msg[from..from + n] == Zeros(n);
      assert msg[..] == msg[..from] + msg[from..from + n] + msg[from + n..];
    }

    /** Copies the text of a C string, without its terminator, into the buffer. */
    method CopyIn(s: string, at: nat)
      requires Valid() && at + |CStr(s)| <= MAX_TRANS_MSG_LEN
      modifies msg
      ensures msg[..] == old(msg[..at]) + CStr(s) + old(msg[at + |CStr(s)|..])
    {
      var text := CStr(s);
      for i := 0 to |text|
        invariant msg[..at] == old(msg[..at]) && msg[at + |text|..] == old(msg[at + |text|..])
        invariant forall k :: 0 <= k < i ==> msg[at + k] == text[k]
      {
        msg[at + i] := text[i];
      }
      assert msg[at..at + |text|] == text;
      assert msg[..] == msg[..at] + msg[at..at + |text|] + msg[at + |text|..];
    }

    method SetMsg(s: string) returns (ok: bool)
      requires Valid()
      modifies msg
      ensures ok == (|CStr(s)| < MAX_TRANS_MSG_LEN)
      ensures Value() == WithMsg(old(Value()), s)
    {
      if |CStr(s)| >= MAX_TRANS_MSG_LEN {
        return false;
      }
      Clear(0, MAX_TRANS_MSG_LEN);
      CopyIn(s, 0);
      return true;
    }

    /** `snprintf` takes the text as its format. */
    method SetName(s: string) returns (ok: bool)
      requires Valid() && Defined(CStr(s))
      modifies msg
      ensures ok == (|CStr(s)| < NAME_MAX_LEN)
      ensures Value() == WithName(old(Value()), s)
    {
      if |CStr(s)| >= NAME_MAX_LEN {
        return false;
      }
      hide Formatted, CStr;
      Clear(0, NAME_MAX_LEN);
      CopyIn(Formatted(s), 0);
      PasteOver(Formatted(s), NAME_MAX_LEN, old(msg[NAME_MAX_LEN..]));
      return true;
    }

    method SetPasswd(s: string) returns (ok: bool)
      requires Valid() && Defined(CStr(s))
      modifies msg
      ensures ok == (|CStr(s)| < PASSWORD_MAX_LEN)
      ensures Value() == WithPasswd(old(Value()), s)
    {
      if |CStr(s)| >= PASSWORD_MAX_LEN {
        return false;
      }
      Clear(NAME_MAX_LEN, PASSWORD_MAX_LEN);
      CopyIn(Formatted(s), NAME_MAX_LEN);
      return true;
    }

    method SetNamePasswd(name: string, passwd: string) returns (ok: bool)
      requires Valid() && Defined(CStr(name)) && Defined(CStr(passwd))
      modifies msg
      ensures ok == (|CStr(name)| < NAME_MAX_LEN && |CStr(passwd)| < PASSWORD_MAX_LEN)
      ensures Value() == WithNamePasswd(old(Value()), name, passwd)
    {
      if |CStr(name)| >= NAME_MAX_LEN || |CStr(passwd)| >= PASSWORD_MAX_LEN {
        return false;
      }
      Clear(0, MAX_TRANS_MSG_LEN);
      var nameSet := SetName(name);
      var passwdSet := SetPasswd(passwd);
      return true;
    }

    /** Field by field out of a received buffer; the text goes through `setMsg` first, which the
        final copy of all 64 bytes overrides. */
    method FromBuff(buff: string)
      requires Valid() && |buff| >= OBJ_SIZE
      modifies this, msg
      ensures Value() == TransBuff2Obj(old(Value()), buff)
    {
      recverId := Int32At(buff, 12);
      fd := Int32At(buff, 16);
      id := Int32At(buff, 8);
      msgType := Uint32At(buff, 0);
      var ok := SetMsg(buff[20..]);
      for i := 0 to MAX_TRANS_MSG_LEN
        invariant recverId == Int32At(buff, 12) && fd == Int32At(buff, 16) && id == Int32At(buff, 8)
        invariant msgType == Uint32At(buff, 0) && len == old(len)
        invariant msg[..i] == buff[20..20 + i]
      {
        msg[i] := buff[20 + i];
      }
      assert msg[..] == msg[..MAX_TRANS_MSG_LEN];
    }
  }
}
