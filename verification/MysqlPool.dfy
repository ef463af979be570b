/** The bounded connection pool: accounting of idle, borrowed and freed connections, and the
    borrow discipline of its callers over every interleaving of the locked sections. */
module MysqlPool {
  import opened Wrappers
  import opened Counting

  /** Connections are numbered in the order in which the driver makes them. */
  type Conn = nat

  datatype Pool = Pool(
    idle: seq<Conn>,       // connList
    curSize: int,
    maxSize: int,
    borrowed: set<Conn>,
    freed: seq<Conn>,      // deleted connections, in order
    next: Conn)            // connections made so far

  const FRESH: Pool := Pool([], 0, 0, {}, [], 0)

  // ----- the locked sections; the environment decides `closed` and whether `connect` succeeds

  function InitConnection(p: Pool, attempts: seq<bool>): Pool {
    if attempts == [] then p
    else
      var q := InitConnection(p, attempts[..|attempts| - 1]);
      if attempts[|attempts| - 1] then q.(idle := q.idle + [q.next], curSize := q.curSize + 1, next := q.next + 1)
      else q
  }

  /** maxSize/2 rounds towards zero, and a negative count makes no attempt. */
  function Attempts(maxSize: int): nat { if maxSize < 0 then 0 else maxSize / 2 }

  function InitPool(p: Pool, maxSize: int, attempts: seq<bool>): Pool
    requires |attempts| == Attempts(maxSize)
  {
    InitConnection(p.(maxSize := maxSize, curSize := 0), attempts)
  }

  function Get(p: Pool, closed: bool, connects: bool): (Pool, Option<Conn>) {
    if p.idle != [] then
      var c := p.idle[0];
      var q := p.(idle := p.idle[1..]);
      if !closed then (q.(borrowed := q.borrowed + {c}), Some(c))
      else if connects then
        (q.(freed := q.freed + [c], borrowed := q.borrowed + {q.next}, next := q.next + 1), Some(q.next))
      else (q.(freed := q.freed + [c], curSize := q.curSize - 1), None)
    else if p.curSize < p.maxSize && connects then
      (p.(borrowed := p.borrowed + {p.next}, curSize := p.curSize + 1, next := p.next + 1), Some(p.next))
    else (p, None)
  }

  function Release(p: Pool, c: Conn): Pool {
    p.(idle := p.idle + [c], borrowed := p.borrowed - {c})
  }

  function Destroy(p: Pool): Pool {
    p.(idle := [], curSize := 0, freed := p.freed + p.idle)
  }

  // ----- accounting

  function Max(a: int, b: int): int { if a < b then b else a }

  /** How often a connection occurs among the idle, the freed and the borrowed ones. */
  ghost function Places(p: Pool, c: Conn): nat {
    multiset(p.idle)[c] + multiset(p.freed)[c] + if c in p.borrowed then 1 else 0
  }

  /** Every connection made is in exactly one place, and there once. */
  ghost predicate Placed(p: Pool) {
    forall c: Conn :: Places(p, c) == if c < p.next then 1 else 0
  }

  ghost predicate Accounted(p: Pool) {
    && Placed(p)
    && p.curSize == |p.idle| + |p.borrowed|
    && p.curSize <= Max(0, p.maxSize)
  }

  lemma {:induction false} InitConnectionAccounts(p: Pool, attempts: seq<bool>)
    requires Placed(p)
    ensures var q := InitConnection(p, attempts);
      && Placed(q)
      && q.curSize - |q.idle| == p.curSize - |p.idle|
      && p.curSize <= q.curSize <= p.curSize + |attempts|
      && q.maxSize == p.maxSize && q.borrowed == p.borrowed && q.freed == p.freed
  {
    if attempts != [] {
      InitConnectionAccounts(p, attempts[..|attempts| - 1]);
      var q := InitConnection(p, attempts[..|attempts| - 1]);
      var r := InitConnection(p, attempts);
      forall c: Conn ensures Places(r, c) == if c < r.next then 1 else 0 {
        assert Places(q, c) == if c < q.next then 1 else 0;
      }
    }
  }

  /** Initialising establishes the accounting exactly when the pool held nothing before: a
      second call of `initPool` on a pool in use forgets what it holds. */
  lemma InitAccounts(p: Pool, maxSize: int, attempts: seq<bool>)
    requires Placed(p) && |attempts| == Attempts(maxSize)
    ensures Accounted(InitPool(p, maxSize, attempts)) <==> p.idle == [] && p.borrowed == {}
  {
    var q := p.(maxSize := maxSize, curSize := 0);
    forall c: Conn ensures Places(q, c) == if c < q.next then 1 else 0 {
      assert Places(p, c) == if c < p.next then 1 else 0;
    }
    InitConnectionAccounts(q, attempts);
  }

  lemma GetAccounts(p: Pool, closed: bool, connects: bool)
    requires Accounted(p)
    ensures var (q, got) := Get(p, closed, connects);
      && Accounted(q) && q.maxSize == p.maxSize
      && (got.Some? ==> got.value !in p.borrowed && q.borrowed == p.borrowed + {got.value})
      && (got.None? ==> q.borrowed == p.borrowed)
  {
    if p.idle != [] {
      assert p.idle == [p.idle[0]] + p.idle[1..];
    }
    var q := Get(p, closed, connects).0;
    forall c: Conn ensures Places(q, c) == if c < q.next then 1 else 0 {
      assert Places(p, c) == if c < p.next then 1 else 0;
    }
    assert Places(p, p.next) == 0;
    if p.idle != [] {
      assert Places(p, p.idle[0]) <= 1;
    }
  }

  /** When GetConnection returns null. */
  predicate Refuses(p: Pool, closed: bool, connects: bool) {
    if p.idle != [] then closed && !connects else p.curSize >= p.maxSize || !connects
  }

  /** A caller is refused exactly when the front connection is closed and cannot be replaced, or
      none is idle and there is no room or no connecting.  An open front connection is handed out
      as it is; a closed one is freed, and what is made is new. */
  lemma GetRefusesExactly(p: Pool, closed: bool, connects: bool)
    requires Accounted(p)
    ensures var (q, got) := Get(p, closed, connects);
      && (got.None? <==> Refuses(p, closed, connects))
      && (p.idle != [] ==> q.idle == p.idle[1..])
      && (p.idle != [] && !closed ==> got == Some(p.idle[0]) && q.next == p.next && q.freed == p.freed)
      && (p.idle != [] && closed ==> q.freed == p.freed + [p.idle[0]])
      && (got.Some? && (p.idle == [] || closed) ==> got == Some(p.next) && q.next == p.next + 1)
  {
    GetAccounts(p, closed, connects);
  }

  /** The connections that a run of callers takes from a pool whose idle ones are open. */
  function Taken(p: Pool, n: nat): seq<Option<Conn>>
    decreases n
  {
    if n == 0 then [] else [Get(p, false, false).1] + Taken(Get(p, false, false).0, n - 1)
  }

  /** Idle connections are handed out in the order in which they came back. */
  lemma {:induction false} IdleAreTakenInOrder(p: Pool, n: nat)
    requires n <= |p.idle|
    ensures |Taken(p, n)| == n && forall i :: 0 <= i < n ==> Taken(p, n)[i] == Some(p.idle[i])
    decreases n
  {
    if n > 0 {
      IdleAreTakenInOrder(Get(p, false, false).0, n - 1);
    }
  }

  /** A released connection is taken again, after all that were idle before it. */
  lemma ReleasedComesLast(p: Pool, c: Conn)
    ensures var t := Taken(Release(p, c), |p.idle| + 1);
      |t| == |p.idle| + 1 && t[|p.idle|] == Some(c) && forall i :: 0 <= i < |p.idle| ==> t[i] == Some(p.idle[i])
  {
    IdleAreTakenInOrder(Release(p, c), |p.idle| + 1);
  }

  function Successes(attempts: seq<bool>): nat {
    if attempts == [] then 0 else (if attempts[|attempts| - 1] then 1 else 0) + Successes(attempts[..|attempts| - 1])
  }

  /** Initialising makes half of maxSize attempts, and one idle connection for each success. */
  lemma {:induction false} InitMakesSuccesses(p: Pool, attempts: seq<bool>)
    ensures var q := InitConnection(p, attempts);
      && |q.idle| == |p.idle| + Successes(attempts) && q.curSize == p.curSize + Successes(attempts)
      && p.idle <= q.idle && q.next == p.next + Successes(attempts)
  {
    if attempts != [] {
      InitMakesSuccesses(p, attempts[..|attempts| - 1]);
    }
  }

  lemma HalfIsAttempted(maxSize: int)
    ensures maxSize < 0 ==> Attempts(maxSize) == 0
    ensures maxSize >= 0 ==> 2 * Attempts(maxSize) <= maxSize <= 2 * Attempts(maxSize) + 1
  {
  }

  lemma ReleaseAccounts(p: Pool, c: Conn)
    requires Accounted(p) && c in p.borrowed
    ensures Accounted(Release(p, c))
  {
    forall x: Conn ensures Places(Release(p, c), x) == if x < p.next then 1 else 0 {
      assert Places(p, x) == if x < p.next then 1 else 0;
    }
  }

  /** Destroying keeps the accounting exactly when nothing is borrowed, and then it has freed
      every connection ever made, each once. */
  lemma DestroyAccounts(p: Pool)
    requires Accounted(p)
    ensures Accounted(Destroy(p)) <==> p.borrowed == {}
    ensures forall c: Conn :: multiset(Destroy(p).freed)[c] == if c < p.next && c !in p.borrowed then 1 else 0
  {
    var q := Destroy(p);
    forall x: Conn
      ensures Places(q, x) == if x < p.next then 1 else 0
      ensures multiset(q.freed)[x] == if x < p.next && x !in p.borrowed then 1 else 0
    {
      assert Places(p, x) == if x < p.next then 1 else 0;
    }
  }

  // ----- callers of ExecQuery and ExecInsert, interleaved

  datatype CallerPc =
    | Wanting            // about to call GetConnection
    | Using(conn: Conn)  // between GetConnection and ReleaseConnection
    | Done               // returned, its connection back in the pool
    | Refused            // returned at once, for lack of a connection
    | Escaped(conn: Conn)  // an exception outside the try block has left the function

  datatype System = System(pool: Pool, callers: seq<CallerPc>)

  datatype Action =
    | Call
    | Borrow(c: nat, closed: bool, connects: bool)
    | GiveBack(c: nat)  // the statement ran, or threw inside the try block
    | Throw(c: nat)     // setSchema, createStatement or the closing of the statement threw

  predicate Enabled(s: System, a: Action) {
    match a
    case Call => true
    case Borrow(c, _, _) => c < |s.callers| && s.callers[c] == Wanting
    case GiveBack(c) => c < |s.callers| && s.callers[c].Using?
    case Throw(c) => c < |s.callers| && s.callers[c].Using?
  }

  function Apply(s: System, a: Action): System
    requires Enabled(s, a)
  {
    match a
    case Call => s.(callers := s.callers + [Wanting])
    case Borrow(c, closed, connects) =>
      var (pool, got) := Get(s.pool, closed, connects);
      System(pool, s.callers[c := if got.Some? then Using(got.value) else Refused])
    case GiveBack(c) =>
      System(Release(s.pool, s.callers[c].conn), s.callers[c := Done])
    case Throw(c) => s.(callers := s.callers[c := Escaped(s.callers[c].conn)])
  }

  predicate Runnable(s: System, run: seq<Action>)
    decreases |run|
  {
    run == [] || (Enabled(s, run[0]) && Runnable(Apply(s, run[0]), run[1..]))
  }

  function Exec(s: System, run: seq<Action>): System
    requires Runnable(s, run)
    decreases |run|
  {
    if run == [] then s else Exec(Apply(s, run[0]), run[1..])
  }

  /** Reached from a pool that was initialised once, with whatever success. */
  ghost predicate Reachable(s: System) {
    exists maxSize, attempts: seq<bool>, run ::
      |attempts| == Attempts(maxSize) &&
      Runnable(System(InitPool(FRESH, maxSize, attempts), []), run) &&
      Exec(System(InitPool(FRESH, maxSize, attempts), []), run) == s
  }

  lemma {:induction false} Extend(s: System, run: seq<Action>, a: Action)
    requires Runnable(s, run) && Enabled(Exec(s, run), a)
    ensures Runnable(s, run + [a]) && Exec(s, run + [a]) == Apply(Exec(s, run), a)
    decreases |run|
  {
    if run != [] {
      assert (run + [a])[1..] == run[1..] + [a];
      Extend(Apply(s, run[0]), run[1..], a);
    }
  }

  /** A step from a reachable state leads to one. */
  lemma ReachStep(s: System, a: Action)
    requires Reachable(s) && Enabled(s, a)
    ensures Reachable(Apply(s, a))
  {
    var maxSize, attempts, run :|
      |attempts| == Attempts(maxSize) &&
      Runnable(System(InitPool(FRESH, maxSize, attempts), []), run) &&
      Exec(System(InitPool(FRESH, maxSize, attempts), []), run) == s;
    Extend(System(InitPool(FRESH, maxSize, attempts), []), run, a);
  }

  function Held(pc: CallerPc): multiset<Conn> {
    if pc.Using? || pc.Escaped? then multiset{pc.conn} else multiset{}
  }

  function UsingWeight(pc: CallerPc): nat { if pc.Using? then 1 else 0 }

  function EscapedWeight(pc: CallerPc): nat { if pc.Escaped? then 1 else 0 }

  function HeldWeight(pc: CallerPc): nat { UsingWeight(pc) + EscapedWeight(pc) }

  ghost predicate Inv(s: System) {
    Accounted(s.pool) && multiset(s.pool.borrowed) == Gather(Held, s.callers)
  }

  lemma InvPreserved(s: System, a: Action)
    requires Inv(s) && Enabled(s, a)
    ensures Inv(Apply(s, a))
  {
    match a
    case Call => GatherAppend(Held, s.callers, Wanting);
    case Borrow(c, closed, connects) => BorrowKeepsInv(s, c, closed, connects);
    case GiveBack(c) => GiveBackKeepsInv(s, c);
    case Throw(c) => GatherUpdate(Held, s.callers, c, Apply(s, a).callers[c]);
  }

  lemma BorrowKeepsInv(s: System, c: nat, closed: bool, connects: bool)
    requires Inv(s) && Enabled(s, Borrow(c, closed, connects))
    ensures Inv(Apply(s, Borrow(c, closed, connects)))
  {
    GetAccounts(s.pool, closed, connects);
    var got := Get(s.pool, closed, connects).1;
    if got.Some? {
      HeldBy(s.callers, c, Using(got.value));
      assert multiset(s.pool.borrowed + {got.value}) == multiset(s.pool.borrowed) + multiset{got.value};
    } else {
      HeldBy(s.callers, c, Refused);
    }
  }

  lemma HeldBy(callers: seq<CallerPc>, c: nat, pc: CallerPc)
    requires c < |callers| && callers[c] == Wanting
    ensures Gather(Held, callers[c := pc]) == Gather(Held, callers) + Held(pc)
  {
    GatherUpdate(Held, callers, c, pc);
    assert Held(callers[c]) == multiset{};
  }

  lemma GiveBackKeepsInv(s: System, c: nat)
    requires Inv(s) && Enabled(s, GiveBack(c))
    ensures Inv(Apply(s, GiveBack(c)))
  {
    var conn := s.callers[c].conn;
    GatherUpdate(Held, s.callers, c, Done);
    assert Held(s.callers[c]) == multiset{conn};
    assert conn in multiset(s.pool.borrowed);
    ReleaseAccounts(s.pool, conn);
    assert multiset(s.pool.borrowed - {conn}) == multiset(s.pool.borrowed) - multiset{conn};
  }

  lemma {:induction false} RunKeepsInv(s: System, run: seq<Action>)
    requires Inv(s) && Runnable(s, run)
    ensures Inv(Exec(s, run))
    decreases |run|
  {
    if run != [] {
      InvPreserved(s, run[0]);
      RunKeepsInv(Apply(s, run[0]), run[1..]);
    }
  }

  /** The accounting holds over every interleaving. */
  lemma AlwaysAccounted(s: System)
    requires Reachable(s)
    ensures Inv(s)
  {
    var maxSize, attempts, run :|
      |attempts| == Attempts(maxSize) &&
      Runnable(System(InitPool(FRESH, maxSize, attempts), []), run) &&
      Exec(System(InitPool(FRESH, maxSize, attempts), []), run) == s;
    forall c: Conn ensures Places(FRESH, c) == 0 {}
    InitConnectionAccounts(FRESH.(maxSize := maxSize), attempts);
    InitAccounts(FRESH, maxSize, attempts);
    RunKeepsInv(System(InitPool(FRESH, maxSize, attempts), []), run);
  }

  /** What is borrowed is what the callers inside hold plus one connection for each exception
      that escaped; no two of them hold the same one. */
  lemma BorrowedAreHeld(s: System)
    requires Reachable(s)
    ensures |s.pool.borrowed| == Sum(UsingWeight, s.callers) + Sum(EscapedWeight, s.callers)
    ensures forall c, d :: 0 <= c < d < |s.callers| && s.callers[c].Using? && s.callers[d].Using? ==>
              s.callers[c].conn != s.callers[d].conn
  {
    AlwaysAccounted(s);
    GatherSize(Held, HeldWeight, s.callers);
    HeldIsBoth(s.callers);
    forall c, d | 0 <= c < d < |s.callers| && s.callers[c].Using? && s.callers[d].Using?
      ensures s.callers[c].conn != s.callers[d].conn
    {
      GatherTwo(Held, s.callers, c, d);
      var conn := s.callers[c].conn;
      assert (Held(s.callers[c]) + Held(s.callers[d]))[conn] <= multiset(s.pool.borrowed)[conn];
    }
  }

  lemma {:induction false} HeldIsBoth(callers: seq<CallerPc>)
    ensures Sum(HeldWeight, callers) == Sum(UsingWeight, callers) + Sum(EscapedWeight, callers)
  {
    if callers != [] {
      HeldIsBoth(callers[..|callers| - 1]);
    }
  }

  /** At quiescence nothing is borrowed exactly when every failure stayed inside its try block. */
  lemma QuiescentExactlyWhenNothingEscaped(s: System)
    requires Reachable(s) && Sum(UsingWeight, s.callers) == 0
    ensures s.pool.borrowed == {} <==> Sum(EscapedWeight, s.callers) == 0
    ensures s.pool.curSize == |s.pool.idle| <==> Sum(EscapedWeight, s.callers) == 0
  {
    BorrowedAreHeld(s);
    AlwaysAccounted(s);
  }

  /** A caller beside an open idle connection, or with room and a successful connect, goes on to
      use one; every other is refused, and nobody else is touched. */
  lemma BorrowSucceedsExactly(s: System, c: nat, closed: bool, connects: bool)
    requires Reachable(s) && Enabled(s, Borrow(c, closed, connects))
    ensures var t := Apply(s, Borrow(c, closed, connects));
      && t.callers == s.callers[c := t.callers[c]]
      && (t.callers[c].Using? <==> !Refuses(s.pool, closed, connects))
      && (t.callers[c] == Refused <==> Refuses(s.pool, closed, connects))
      && (s.pool.idle != [] && !closed ==> t.callers[c] == Using(s.pool.idle[0]))
  {
    AlwaysAccounted(s);
    GetRefusesExactly(s.pool, closed, connects);
  }

  function Calls(run: seq<Action>): nat {
    if run == [] then 0 else (if run[0].Call? then 1 else 0) + Calls(run[1..])
  }

  /** Every call is a caller of its own. */
  lemma {:induction false} CallersAreCounted(s: System, run: seq<Action>)
    requires Runnable(s, run)
    ensures |Exec(s, run).callers| == |s.callers| + Calls(run)
    decreases |run|
  {
    if run != [] {
      CallersAreCounted(Apply(s, run[0]), run[1..]);
    }
  }

  /** A run that ends with nobody inside and then destroys the pool keeps the accounting, and frees
      every connection ever made exactly once, if and only if no exception escaped; the pool can
      then be initialised again. */
  lemma DestroyedAtQuiescence(s: System, maxSize: int, attempts: seq<bool>)
    requires Reachable(s) && Sum(UsingWeight, s.callers) == 0 && |attempts| == Attempts(maxSize)
    ensures var p := Destroy(s.pool);
      && (Accounted(p) <==> Sum(EscapedWeight, s.callers) == 0)
      && ((forall c: Conn :: multiset(p.freed)[c] == if c < p.next then 1 else 0)
            <==> Sum(EscapedWeight, s.callers) == 0)
      && (Sum(EscapedWeight, s.callers) == 0 ==> Accounted(InitPool(p, maxSize, attempts)))
  {
    hide InitPool, Gather;
    QuiescentExactlyWhenNothingEscaped(s);
    AlwaysAccounted(s);
    DestroyAccounts(s.pool);
    var p := Destroy(s.pool);
    if s.pool.borrowed == {} {
      InitAccounts(p, maxSize, attempts);
    } else {
      var c :| c in s.pool.borrowed;
      assert Places(s.pool, c) == if c < s.pool.next then 1 else 0;
      assert c < p.next && multiset(p.freed)[c] == 0;
    }
  }

  /** Once as many exceptions have escaped as the pool has room for, every caller is refused. */
  lemma EscapesExhaustThePool(s: System, closed: bool, connects: bool)
    requires Reachable(s) && Sum(EscapedWeight, s.callers) >= Max(0, s.pool.maxSize)
    ensures Get(s.pool, closed, connects) == (s.pool, None)
  {
    BorrowedAreHeld(s);
    AlwaysAccounted(s);
  }

  // ----- the object

  /** The pool's fields, changed in place, with ghost records of what is out and what is gone. */
  class MysqlPool {
    var connList: seq<Conn>
    var curSize: int
    var maxSize: int
    var next: Conn  // belongs to the driver
    ghost var borrowed: set<Conn>
    ghost var freed: seq<Conn>

    ghost function State(): Pool
      reads this
    {
      Pool(connList, curSize, maxSize, borrowed, freed, next)
    }

    constructor ()
      ensures State() == FRESH
    {
      connList, curSize, maxSize, next := [], 0, 0, 0;
      borrowed, freed := {}, [];
    }

    method CreateConnection(connects: bool) returns (conn: Option<Conn>)
      modifies this`next
      ensures conn == if connects then Some(old(next)) else None
      ensures next == if connects then old(next) + 1 else old(next)
    {
      if connects {
        conn := Some(next);
        next := next + 1;
      } else {
        conn := None;
      }
    }

    method InitPoolSize(size: int, attempts: seq<bool>)
      requires |attempts| == Attempts(size)
      modifies this
      ensures State() == InitPool(old(State()), size, attempts)
    {
      maxSize := size;
      curSize := 0;
      InitConnections(attempts);
    }

    method InitConnections(attempts: seq<bool>)
      modifies this
      ensures State() == InitConnection(old(State()), attempts)
    {
      for i := 0 to |attempts|
        invariant State() == InitConnection(old(State()), attempts[..i])
      {
        assert attempts[..i + 1][..i] == attempts[..i];
        var conn := CreateConnection(attempts[i]);
        if conn.Some? {
          connList := connList + [conn.value];
          curSize := curSize + 1;
        }
      }
      assert attempts[..|attempts|] == attempts;
    }

    method GetConnection(closed: bool, connects: bool) returns (conn: Option<Conn>)
      modifies this
      ensures (State(), conn) == Get(old(State()), closed, connects)
    {
      if connList != [] {
        conn := Some(connList[0]);
        connList := connList[1..];
        if closed {
          freed := freed + [conn.value];
          conn := CreateConnection(connects);
        }
        if conn.None? {
          curSize := curSize - 1;
        }
      } else if curSize < maxSize {
        conn := CreateConnection(connects);
        if conn.Some? {
          curSize := curSize + 1;
        }
      } else {
        conn := None;
      }
      if conn.Some? {
        borrowed := borrowed + {conn.value};
      }
    }

    method ReleaseConnection(conn: Option<Conn>)
      modifies this
      ensures State() == if conn.Some? then Release(old(State()), conn.value) else old(State())
    {
      if conn.Some? {
        connList := connList + [conn.value];
        borrowed := borrowed - {conn.value};
      }
    }

    method DestroyConnPool()
      modifies this
      ensures State() == Destroy(old(State()))
    {
      ghost var before := State();
      for i := 0 to |connList|
        invariant State() == before.(freed := before.freed + before.idle[..i])
      {
        freed := freed + [connList[i]];
      }
      curSize := 0;
      connList := [];
      assert before.idle[..|before.idle|] == before.idle;
    }

    /** `ExecQuery` and `ExecInsert`, with failures only inside the try block: whatever they
        return, the connection they took is back, and the accounting still holds. */
    method ExecStatement(closed: bool, connects: bool, throws: bool) returns (ok: bool)
      requires Accounted(State())
      modifies this
      ensures Accounted(State()) && borrowed == old(borrowed) && maxSize == old(maxSize)
      ensures var (q, got) := Get(old(State()), closed, connects);
        && (ok <==> got.Some? && !throws)
        && State() == if got.Some? then Release(q, got.value) else q
    {
      ghost var before := State();
      var conn := GetConnection(closed, connects);
      GetAccounts(before, closed, connects);
      if conn.None? {
        return false;
      }
      ok := !throws;
      ghost var during := State();
      ReleaseConnection(conn);
      ReleaseAccounts(during, conn.value);
    }
  }
}
