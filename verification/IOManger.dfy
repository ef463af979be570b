/** The console monitor as a step machine: one I/O thread, any number of callers, and the
    output queue, which is a second monitor with a mutex of its own inside the first. */
module IOManger {
  import opened Counting

  datatype IoPc =
    | Ready      // top of the loop, wants data_mutex
    | Testing    // holds it, about to evaluate the wait predicate
    | Awake      // holds it, the wait has returned
    | Asleep
    | Signalled  // left the wait set, wants data_mutex
    | InTalk     // holds it, inside handleTalk
    | InQueue    // holds it and the queue's mutex, inside handleOutputMsg

  datatype Op<V> = TurnToTalk | Put(message: V) | IsTalking

  datatype CallPc<V> =
    | Entering(op: Op<V>)
    | Locked(op: Op<V>)
    | Pushing(message: V)  // holds data_mutex and the queue's mutex
    | Owing(op: Op<V>)     // holds data_mutex, notifies next
    | Returned(op: Op<V>)
    | Answered(talking: bool)

  datatype Owner = Nobody | Io | Caller(c: nat)

  datatype Event<V> = Printed(message: V) | FoundEmpty | TalkAsked | TalkBegan | TalkEnded

  datatype Console<V> = Console(
    owner: Owner,       // of data_mutex
    inner: Owner,       // of the queue's mutex
    talking: bool,
    output: seq<V>,
    io: IoPc,
    calls: seq<CallPc<V>>,
    put: seq<V>,        // in lock order
    trace: seq<Event<V>>)

  datatype Action<V> =
    | IoLock
    | IoTest
    | IoBranch
    | IoEndTalk
    | IoPrint
    | IoSpurious
    | Begin(op: Op<V>)
    | CallLock(c: nat)
    | CallAct(c: nat)
    | CallPush(c: nat)
    | CallNotify(c: nat)

  function Initial<V>(): Console<V> {
    Console(Nobody, Nobody, false, [], Ready, [], [], [])
  }

  predicate Pending<V>(s: Console<V>) { s.talking || |s.output| > 0 }

  predicate Enabled<V>(s: Console<V>, a: Action<V>) {
    match a
    case IoLock => s.io in {Ready, Signalled} && s.owner == Nobody
    case IoTest => s.io == Testing && s.inner == Nobody
    case IoBranch => s.io == Awake && (s.talking || s.inner == Nobody)
    case IoEndTalk => s.io == InTalk
    case IoPrint => s.io == InQueue
    case IoSpurious => s.io == Asleep
    case Begin(_) => true
    case CallLock(c) => c < |s.calls| && s.calls[c].Entering? && s.owner == Nobody
    case CallAct(c) => c < |s.calls| && s.calls[c].Locked? && (s.calls[c].op.Put? ==> s.inner == Nobody)
    case CallPush(c) => c < |s.calls| && s.calls[c].Pushing?
    case CallNotify(c) => c < |s.calls| && s.calls[c].Owing?
  }

  function Apply<V>(s: Console<V>, a: Action<V>): Console<V>
    requires Enabled(s, a)
  {
    match a
    case IoLock => s.(io := Testing, owner := Io)
    case IoTest => if Pending(s) then s.(io := Awake) else s.(io := Asleep, owner := Nobody)
    case IoBranch =>
      if s.talking then s.(io := InTalk, trace := s.trace + [TalkBegan])
      else s.(io := InQueue, inner := Io)
    case IoEndTalk => s.(io := Ready, owner := Nobody, talking := false, trace := s.trace + [TalkEnded])
    case IoPrint =>
      if |s.output| == 0 then s.(io := Ready, owner := Nobody, inner := Nobody, trace := s.trace + [FoundEmpty])
      else s.(io := Ready, owner := Nobody, inner := Nobody,
              output := s.output[1..], trace := s.trace + [Printed(s.output[0])])
    case IoSpurious => s.(io := Signalled)
    case Begin(op) => s.(calls := s.calls + [Entering(op)])
    case CallLock(c) => s.(calls := s.calls[c := Locked(s.calls[c].op)], owner := Caller(c))
    case CallAct(c) =>
      (match s.calls[c].op
       case TurnToTalk => s.(calls := s.calls[c := Owing(TurnToTalk)], talking := true, trace := s.trace + [TalkAsked])
       case Put(m) => s.(calls := s.calls[c := Pushing(m)], inner := Caller(c))
       case IsTalking => s.(calls := s.calls[c := Answered(s.talking)], owner := Nobody))
    case CallPush(c) =>
      var m := s.calls[c].message;
      s.(calls := s.calls[c := Owing(Put(m))], inner := Nobody, output := s.output + [m], put := s.put + [m])
    case CallNotify(c) =>
      s.(calls := s.calls[c := Returned(s.calls[c].op)], owner := Nobody,
         io := if s.io == Asleep then Signalled else s.io)
  }

  // ----- runs

  predicate Runnable<V>(s: Console<V>, run: seq<Action<V>>)
    decreases |run|
  {
    run == [] || (Enabled(s, run[0]) && Runnable(Apply(s, run[0]), run[1..]))
  }

  function Exec<V>(s: Console<V>, run: seq<Action<V>>): Console<V>
    requires Runnable(s, run)
    decreases |run|
  {
    if run == [] then s else Exec(Apply(s, run[0]), run[1..])
  }

  ghost predicate Reachable<V(!new)>(s: Console<V>) {
    exists run :: Runnable(Initial(), run) && Exec(Initial(), run) == s
  }

  /** A wakeup without cause is harmless: the I/O thread looks again and, with nothing to do, the
      console is back as it was; with something to do, it goes on. */
  lemma SpuriousIsHarmless<V>(s: Console<V>)
    requires s.io == Asleep && s.owner == Nobody && s.inner == Nobody
    ensures var again: seq<Action<V>> := [IoSpurious, IoLock, IoTest];
      && Runnable(s, again)
      && Exec(s, again) == if Pending(s) then s.(io := Awake, owner := Io) else s
  {
    var again: seq<Action<V>> := [IoSpurious, IoLock, IoTest];
    var woken := Apply(s, IoSpurious);
    assert again[1..] == [IoLock, IoTest] && again[1..][1..] == [IoTest];
    assert Enabled(woken, IoLock) && Enabled(Apply(woken, IoLock), IoTest);
  }

  // ----- invariants

  predicate IoHolds(pc: IoPc) { pc !in {Ready, Asleep, Signalled} }

  predicate CallHolds<V>(pc: CallPc<V>) { pc.Locked? || pc.Pushing? || pc.Owing? }

  /** Mutual exclusion on both mutexes. */
  ghost predicate LockInv<V>(s: Console<V>) {
    && (s.owner.Caller? ==> s.owner.c < |s.calls|)
    && (s.inner.Caller? ==> s.inner.c < |s.calls|)
    && (s.owner == Io <==> IoHolds(s.io))
    && (s.inner == Io <==> s.io == InQueue)
    && (forall c :: 0 <= c < |s.calls| ==> (CallHolds(s.calls[c]) <==> s.owner == Caller(c)))
    && (forall c :: 0 <= c < |s.calls| ==> (s.calls[c].Pushing? <==> s.inner == Caller(c)))
  }

  /** What the I/O thread knows at each point, and when it may sleep. */
  ghost predicate IoInv<V>(s: Console<V>) {
    && (s.io == Awake ==> Pending(s))
    && (s.io == InTalk ==> s.talking)
    && (s.io == InQueue ==> !s.talking && |s.output| > 0)
    && (s.io == Asleep && Pending(s) ==> s.owner.Caller? && s.owner.c < |s.calls| && s.calls[s.owner.c].Owing?)
  }

  function Prints<V>(trace: seq<Event<V>>): seq<V> {
    if trace == [] then []
    else
      var e := trace[|trace| - 1];
      Prints(trace[..|trace| - 1]) + if e.Printed? then [e.message] else []
  }

  /** A talk has begun and not ended. */
  predicate TalkOpen<V>(trace: seq<Event<V>>) {
    |trace| > 0 &&
    var e := trace[|trace| - 1];
    e.TalkBegan? || (!e.TalkEnded? && TalkOpen(trace[..|trace| - 1]))
  }

  ghost predicate TraceInv<V>(s: Console<V>) {
    && s.put == Prints(s.trace) + s.output
    && (TalkOpen(s.trace) <==> s.io == InTalk)
    && (forall k :: 0 <= k < |s.trace| ==> !s.trace[k].FoundEmpty?)
    && (forall k :: 0 <= k < |s.trace| && s.trace[k].Printed? ==> !TalkOpen(s.trace[..k]))
  }

  /** A talk has been asked for and not begun since. */
  predicate AskPending<V>(trace: seq<Event<V>>) {
    |trace| > 0 &&
    var e := trace[|trace| - 1];
    e.TalkAsked? || (!e.TalkBegan? && AskPending(trace[..|trace| - 1]))
  }

  /** Outside a talk the flag says that one is asked for, and a talk begins only then. */
  ghost predicate TalkInv<V>(s: Console<V>) {
    && (s.talking <==> AskPending(s.trace) || s.io == InTalk)
    && !(AskPending(s.trace) && s.io == InTalk)
    && (forall k :: 0 <= k < |s.trace| && s.trace[k].TalkBegan? ==> AskPending(s.trace[..k]))
  }

  function Message<V>(op: Op<V>): multiset<V> { if op.Put? then multiset{op.message} else multiset{} }

  function Ask<V>(op: Op<V>): nat { if op.TurnToTalk? then 1 else 0 }

  /** What a call has put, and what it has asked for. */
  function Given<V>(pc: CallPc<V>): multiset<V> {
    if pc.Owing? || pc.Returned? then Message(pc.op) else multiset{}
  }

  function Asked<V>(pc: CallPc<V>): nat { if pc.Owing? || pc.Returned? then Ask(pc.op) else 0 }

  function Asks<V>(trace: seq<Event<V>>): nat {
    if trace == [] then 0
    else Asks(trace[..|trace| - 1]) + if trace[|trace| - 1].TalkAsked? then 1 else 0
  }

  /** The histories are those of the calls. */
  ghost predicate CallsInv<V>(s: Console<V>) {
    multiset(s.put) == Gather(Given<V>, s.calls) && Asks(s.trace) == Sum(Asked<V>, s.calls)
  }

  ghost predicate Inv<V>(s: Console<V>) {
    LockInv(s) && IoInv(s) && TraceInv(s) && TalkInv(s) && CallsInv(s)
  }

  predicate ByIo<V>(a: Action<V>) {
    a.IoLock? || a.IoTest? || a.IoBranch? || a.IoEndTalk? || a.IoPrint? || a.IoSpurious?
  }

  lemma LockPreservedByIo<V>(s: Console<V>, a: Action<V>)
    requires LockInv(s) && Enabled(s, a) && ByIo(a)
    ensures LockInv(Apply(s, a))
  {
  }

  lemma LockPreservedByCall<V>(s: Console<V>, a: Action<V>)
    requires LockInv(s) && Enabled(s, a) && !ByIo(a)
    ensures LockInv(Apply(s, a))
  {
  }

  lemma LockPreserved<V>(s: Console<V>, a: Action<V>)
    requires LockInv(s) && Enabled(s, a)
    ensures LockInv(Apply(s, a))
  {
    hide LockInv, Enabled, Apply;
    if ByIo(a) { LockPreservedByIo(s, a); } else { LockPreservedByCall(s, a); }
  }

  lemma IoPreserved<V>(s: Console<V>, a: Action<V>)
    requires LockInv(s) && IoInv(s) && Enabled(s, a)
    ensures IoInv(Apply(s, a))
  {
  }

  lemma PrintsOutsideTalks<V>(trace: seq<Event<V>>, e: Event<V>)
    requires forall k :: 0 <= k < |trace| && trace[k].Printed? ==> !TalkOpen(trace[..k])
    requires e.Printed? ==> !TalkOpen(trace)
    ensures forall k :: 0 <= k < |trace + [e]| && (trace + [e])[k].Printed? ==> !TalkOpen((trace + [e])[..k])
  {
    forall k | 0 <= k < |trace + [e]| && (trace + [e])[k].Printed? ensures !TalkOpen((trace + [e])[..k]) {
      assert (trace + [e])[..k] == if k < |trace| then trace[..k] else trace;
    }
  }

  /** What one more event does to the history. */
  lemma OneMoreEvent<V>(trace: seq<Event<V>>, e: Event<V>)
    ensures Prints(trace + [e]) == Prints(trace) + if e.Printed? then [e.message] else []
    ensures TalkOpen(trace + [e]) <==> e.TalkBegan? || (!e.TalkEnded? && TalkOpen(trace))
  {
    assert (trace + [e])[..|trace|] == trace;
  }

  /** A step that adds no event. */
  lemma SameTrace<V>(s: Console<V>, r: Console<V>)
    requires TraceInv(s) && r.trace == s.trace && (r.io == InTalk <==> s.io == InTalk)
    requires (r.put == s.put && r.output == s.output) ||
             exists m :: r.put == s.put + [m] && r.output == s.output + [m]
    ensures TraceInv(r)
  {
    hide Prints, TalkOpen;
    if r.put != s.put {
      assert Prints(s.trace) + s.output + [r.put[|s.put|]] == Prints(s.trace) + (s.output + [r.put[|s.put|]]);
    }
  }

  /** A step that adds one. */
  lemma TraceGrows<V>(s: Console<V>, r: Console<V>, e: Event<V>)
    requires TraceInv(s) && r.trace == s.trace + [e] && r.put == s.put && !e.FoundEmpty?
    requires if e.Printed? then s.output == [e.message] + r.output && s.io != InTalk else r.output == s.output
    requires r.io == InTalk <==> e.TalkBegan?
    requires e.TalkBegan? || e.TalkEnded? || e.Printed? || (e.TalkAsked? && s.io != InTalk)
    ensures TraceInv(r)
  {
    OneMoreEvent(s.trace, e);
    PrintsOutsideTalks(s.trace, e);
    hide Prints, TalkOpen;
    if e.Printed? {
      assert Prints(s.trace) + ([e.message] + r.output) == Prints(s.trace) + [e.message] + r.output;
    }
  }

  lemma AskGrows<V>(s: Console<V>, c: nat)
    requires LockInv(s) && TraceInv(s) && Enabled(s, CallAct(c)) && s.calls[c].op.TurnToTalk?
    ensures TraceInv(Apply(s, CallAct(c)))
  {
    assert s.owner == Caller(c);
    hide TraceInv;
    TraceGrows(s, Apply(s, CallAct(c)), TalkAsked);
  }

  lemma TracePreserved<V>(s: Console<V>, a: Action<V>)
    requires LockInv(s) && IoInv(s) && TraceInv(s) && Enabled(s, a)
    ensures TraceInv(Apply(s, a))
  {
    hide LockInv, Prints, TalkOpen, TraceInv;
    var r := Apply(s, a);
    match a
    case IoBranch => if s.talking { TraceGrows(s, r, TalkBegan); } else { SameTrace(s, r); }
    case IoEndTalk => TraceGrows(s, r, TalkEnded);
    case IoPrint =>
      assert s.output == [s.output[0]] + s.output[1..];
      TraceGrows(s, r, Printed(s.output[0]));
    case CallAct(c) =>
      if s.calls[c].op.TurnToTalk? { AskGrows(s, c); } else { SameTrace(s, r); }
    case CallPush(c) =>
      assert r.put == s.put + [s.calls[c].message] && r.output == s.output + [s.calls[c].message];
      SameTrace(s, r);
    case _ => SameTrace(s, r);
  }

  lemma MoreAsks<V>(trace: seq<Event<V>>, e: Event<V>)
    ensures AskPending(trace + [e]) <==> e.TalkAsked? || (!e.TalkBegan? && AskPending(trace))
    ensures Asks(trace + [e]) == Asks(trace) + if e.TalkAsked? then 1 else 0
  {
    assert (trace + [e])[..|trace|] == trace;
  }

  lemma TalksAreAsked<V>(trace: seq<Event<V>>, e: Event<V>)
    requires forall k :: 0 <= k < |trace| && trace[k].TalkBegan? ==> AskPending(trace[..k])
    requires e.TalkBegan? ==> AskPending(trace)
    ensures forall k :: 0 <= k < |trace + [e]| && (trace + [e])[k].TalkBegan? ==> AskPending((trace + [e])[..k])
  {
    forall k | 0 <= k < |trace + [e]| && (trace + [e])[k].TalkBegan? ensures AskPending((trace + [e])[..k]) {
      assert (trace + [e])[..k] == if k < |trace| then trace[..k] else trace;
    }
  }

  /** A step adds at most one event. */
  function NewEvent<V>(s: Console<V>, a: Action<V>): seq<Event<V>>
    requires Enabled(s, a)
  {
    match a
    case IoBranch => if s.talking then [TalkBegan] else []
    case IoEndTalk => [TalkEnded]
    case IoPrint => if s.output == [] then [FoundEmpty] else [Printed(s.output[0])]
    case CallAct(c) => if s.calls[c].op.TurnToTalk? then [TalkAsked] else []
    case _ => []
  }

  lemma StepAddsEvent<V>(s: Console<V>, a: Action<V>)
    requires Enabled(s, a)
    ensures Apply(s, a).trace == s.trace + NewEvent(s, a)
  {
  }

  lemma TalkPreserved<V>(s: Console<V>, a: Action<V>)
    requires LockInv(s) && TalkInv(s) && Enabled(s, a)
    ensures TalkInv(Apply(s, a))
  {
    var added := NewEvent(s, a);
    assert a.CallAct? ==> s.owner == Caller(a.c);
    StepAddsEvent(s, a);
    hide LockInv, AskPending;
    if added != [] {
      MoreAsks(s.trace, added[0]);
      TalksAreAsked(s.trace, added[0]);
    }
  }

  lemma StepCalls<V>(s: Console<V>, a: Action<V>)
    requires Enabled(s, a)
    ensures a.Begin? ==> Apply(s, a).calls == s.calls + [Entering(a.op)]
    ensures ByIo(a) ==> Apply(s, a).calls == s.calls
    ensures !ByIo(a) && !a.Begin? ==> a.c < |s.calls| && Apply(s, a).calls == s.calls[a.c := Apply(s, a).calls[a.c]]
    ensures |Apply(s, a).calls| >= |s.calls|
  {
  }

  lemma QuietStep<V>(s: Console<V>, a: Action<V>)
    requires Enabled(s, a) && !a.CallPush?
    ensures Apply(s, a).put == s.put
    ensures !ByIo(a) && !a.Begin? ==> Given(Apply(s, a).calls[a.c]) == Given(s.calls[a.c])
  {
  }

  lemma OneMore<V>(s: seq<V>, v: V)
    ensures multiset(s + [v]) == multiset(s) + multiset{v}
  {
  }

  lemma PushGives<V>(calls: seq<CallPc<V>>, c: nat, m: V)
    requires c < |calls| && calls[c] == Pushing(m)
    ensures Gather(Given<V>, calls[c := Owing(Put(m))]) == Gather(Given<V>, calls) + multiset{m}
  {
    var pc := Owing(Put(m));
    assert Given(calls[c]) == multiset{} && Given(pc) == multiset{m};
    hide Gather, Given;
    GatherUpdate(Given<V>, calls, c, pc);
  }

  lemma PushStep<V>(s: Console<V>, c: nat)
    requires Enabled(s, CallPush(c))
    ensures var m := s.calls[c].message; var r := Apply(s, CallPush(c));
      r.calls == s.calls[c := Owing(Put(m))] && r.put == s.put + [m]
  {
  }

  lemma PushPuts<V>(s: Console<V>, c: nat)
    requires multiset(s.put) == Gather(Given<V>, s.calls) && Enabled(s, CallPush(c))
    ensures multiset(Apply(s, CallPush(c)).put) == Gather(Given<V>, Apply(s, CallPush(c)).calls)
  {
    PushStep(s, c);
    var m := s.calls[c].message;
    assert s.calls[c] == Pushing(m);
    hide Gather, Given, Enabled, Apply;
    OneMore(s.put, m);
    PushGives(s.calls, c, m);
  }

  lemma PutPreserved<V>(s: Console<V>, a: Action<V>)
    requires multiset(s.put) == Gather(Given<V>, s.calls) && Enabled(s, a)
    ensures multiset(Apply(s, a).put) == Gather(Given<V>, Apply(s, a).calls)
  {
    hide Enabled, Apply, Gather;
    StepCalls(s, a);
    if a.CallPush? {
      PushPuts(s, a.c);
    } else {
      QuietStep(s, a);
      if a.Begin? {
        GatherAppend(Given<V>, s.calls, Entering(a.op));
      } else if !ByIo(a) {
        GatherUpdate(Given<V>, s.calls, a.c, Apply(s, a).calls[a.c]);
      }
    }
  }

  lemma CallAsks<V>(s: Console<V>, a: Action<V>)
    requires Enabled(s, a) && !ByIo(a) && !a.Begin?
    ensures Asked(Apply(s, a).calls[a.c]) == Asked(s.calls[a.c]) + |NewEvent(s, a)|
    ensures forall e :: e in NewEvent(s, a) ==> e.TalkAsked?
  {
  }

  lemma OthersAskNothing<V>(s: Console<V>, a: Action<V>)
    requires Enabled(s, a) && (ByIo(a) || a.Begin?)
    ensures forall e :: e in NewEvent(s, a) ==> !e.TalkAsked?
    ensures |NewEvent(s, a)| <= 1
  {
  }

  lemma AsksPreserved<V>(s: Console<V>, a: Action<V>)
    requires Asks(s.trace) == Sum(Asked<V>, s.calls) && Enabled(s, a)
    ensures Asks(Apply(s, a).trace) == Sum(Asked<V>, Apply(s, a).calls)
  {
    hide Enabled, Apply, Asks, Sum, NewEvent;
    var (r, added) := (Apply(s, a), NewEvent(s, a));
    StepAddsEvent(s, a);
    StepCalls(s, a);
    if ByIo(a) || a.Begin? { OthersAskNothing(s, a); } else { CallAsks(s, a); }
    if added == [] { assert r.trace == s.trace; } else { MoreAsks(s.trace, added[0]); assert added == [added[0]]; }
    if a.Begin? {
      SumAppend(Asked<V>, s.calls, Entering(a.op));
    } else if !ByIo(a) {
      SumUpdate(Asked<V>, s.calls, a.c, r.calls[a.c]);
    }
  }

  lemma CallsPreserved<V>(s: Console<V>, a: Action<V>)
    requires CallsInv(s) && Enabled(s, a)
    ensures CallsInv(Apply(s, a))
  {
    hide Apply, Enabled;
    PutPreserved(s, a);
    AsksPreserved(s, a);
  }

  lemma InvPreserved<V>(s: Console<V>, a: Action<V>)
    requires Inv(s) && Enabled(s, a)
    ensures Inv(Apply(s, a))
  {
    hide LockInv, IoInv, TraceInv, TalkInv, CallsInv, Enabled, Apply;
    TalkPreserved(s, a);
    CallsPreserved(s, a);
    LockPreserved(s, a);
    IoPreserved(s, a);
    TracePreserved(s, a);
  }

  lemma {:induction false} RunKeepsInv<V>(s: Console<V>, run: seq<Action<V>>)
    requires Inv(s) && Runnable(s, run)
    ensures Inv(Exec(s, run))
    decreases |run|
  {
    if run != [] {
      InvPreserved(s, run[0]);
      RunKeepsInv(Apply(s, run[0]), run[1..]);
    }
  }

  lemma ReachableInv<V(!new)>(s: Console<V>)
    requires Reachable(s)
    ensures Inv(s)
  {
    var run: seq<Action<V>> :| Runnable(Initial(), run) && Exec(Initial(), run) == s;
    RunKeepsInv(Initial(), run);
  }

  // ----- main results

  /** The I/O thread sleeps unsignalled only when no talk and no output is pending, unless the
      caller that changed that still holds the mutex and is about to notify. */
  lemma SleepsOnlyWhenIdle<V(!new)>(s: Console<V>)
    requires Reachable(s) && s.io == Asleep
    ensures s.owner == Nobody ==> !s.talking && s.output == []
    ensures Pending(s) ==> s.owner.Caller? && s.owner.c < |s.calls| && s.calls[s.owner.c].Owing?
  {
    ReachableInv(s);
  }

  /** What the calls have put is printed exactly once, in put order, never during a talk, and the
      nested queue is never found empty. */
  lemma PrintsExactlyOnce<V(!new)>(s: Console<V>)
    requires Reachable(s)
    ensures multiset(s.put) == Gather(Given<V>, s.calls)
    ensures s.put == Prints(s.trace) + s.output
    ensures FoundEmpty !in s.trace
    ensures forall k :: 0 <= k < |s.trace| && s.trace[k].Printed? ==> !TalkOpen(s.trace[..k])
  {
    ReachableInv(s);
  }

  /** A caller of `isTalking` never observes the talk itself, only a request not yet taken up:
      `handleTalk` keeps the mutex to its end and clears the flag before releasing it. */
  lemma IsTalkingNeverSeesTheTalk<V(!new)>(s: Console<V>, c: nat)
    requires Reachable(s) && Enabled(s, CallAct(c)) && s.calls[c].op.IsTalking?
    ensures !TalkOpen(s.trace)
    ensures Apply(s, CallAct(c)).calls[c] == Answered(AskPending(s.trace))
  {
    ReachableInv(s);
  }

  /** A talk begins only when one has been asked for since the last began, and there are as many
      asks as calls that have asked. */
  lemma TalksOnlyWhenAsked<V(!new)>(s: Console<V>, k: nat)
    requires Reachable(s) && k < |s.trace| && s.trace[k].TalkBegan?
    ensures AskPending(s.trace[..k]) && Asks(s.trace) == Sum(Asked<V>, s.calls)
  {
    ReachableInv(s);
  }

  lemma {:induction false} AskIsTaken<V>(trace: seq<Event<V>>, k: nat) returns (j: nat)
    requires !AskPending(trace) && k < |trace| && trace[k].TalkAsked?
    ensures k < j < |trace| && trace[j].TalkBegan?
  {
    var n := |trace| - 1;
    if trace[n].TalkBegan? {
      j := n;
    } else {
      j := AskIsTaken(trace[..n], k);
    }
  }

  lemma {:induction false} TalkIsEnded<V>(trace: seq<Event<V>>, k: nat) returns (j: nat)
    requires !TalkOpen(trace) && k < |trace| && trace[k].TalkBegan?
    ensures k < j < |trace| && trace[j].TalkEnded?
  {
    var n := |trace| - 1;
    if trace[n].TalkEnded? {
      j := n;
    } else {
      j := TalkIsEnded(trace[..n], k);
    }
  }

  ghost predicate Stuck<V(!new)>(s: Console<V>) {
    forall a: Action<V> :: !a.Begin? && !a.IoSpurious? ==> !Enabled(s, a)
  }

  predicate Settled<V>(pc: CallPc<V>) { pc.Returned? || pc.Answered? }

  /** The two mutexes never deadlock: nothing can move exactly when every call has returned and
      the I/O thread sleeps with nothing to do. */
  lemma StuckOnlyWhenIdle<V(!new)>(s: Console<V>)
    requires Reachable(s)
    ensures Stuck(s) <==>
      s.io == Asleep && !s.talking && s.output == [] && forall c :: 0 <= c < |s.calls| ==> Settled(s.calls[c])
  {
    hide Reachable, TraceInv, TalkInv, CallsInv;
    ReachableInv(s);
    if s.owner != Nobody {
      OwnerNotStuck(s);
    } else if Stuck(s) {
      assert !Enabled(s, IoLock);
      forall c | 0 <= c < |s.calls| ensures Settled(s.calls[c]) {
        assert !Enabled(s, CallLock(c));
      }
    }
  }

  /** A talk that has been asked for takes place: once nothing can move, each ask has been followed
      by the beginning of a talk, and that by its end. */
  lemma EveryAskIsServed<V(!new)>(s: Console<V>, k: nat) returns (i: nat, j: nat)
    requires Reachable(s) && Stuck(s) && k < |s.trace| && s.trace[k].TalkAsked?
    ensures k < i < j < |s.trace| && s.trace[i].TalkBegan? && s.trace[j].TalkEnded?
  {
    hide Stuck, Reachable, AskPending, TalkOpen;
    ReachableInv(s);
    StuckOnlyWhenIdle(s);
    i := AskIsTaken(s.trace, k);
    j := TalkIsEnded(s.trace, i);
  }

  // ----- the calls

  function OpOf<V>(pc: CallPc<V>): Op<V> {
    match pc
    case Entering(op) => op
    case Locked(op) => op
    case Pushing(m) => Put(m)
    case Owing(op) => op
    case Returned(op) => op
    case Answered(_) => IsTalking
  }

  function Ops<V>(calls: seq<CallPc<V>>): (ops: seq<Op<V>>)
    ensures |ops| == |calls| && forall c :: 0 <= c < |calls| ==> ops[c] == OpOf(calls[c])
  {
    seq(|calls|, c requires 0 <= c < |calls| => OpOf(calls[c]))
  }

  /** The operations that a run begins. */
  function Begun<V>(run: seq<Action<V>>): seq<Op<V>> {
    if run == [] then [] else (if run[0].Begin? then [run[0].op] else []) + Begun(run[1..])
  }

  lemma StepKeepsCalls<V>(s: Console<V>, a: Action<V>)
    requires Enabled(s, a)
    ensures Ops(Apply(s, a).calls) == Ops(s.calls) + Begun([a])
  {
    StepCalls(s, a);
    if !ByIo(a) && !a.Begin? {
      assert OpOf(Apply(s, a).calls[a.c]) == OpOf(s.calls[a.c]);
    }
    hide Enabled, Apply, OpOf;
  }

  /** Every call that begins stays, with its operation. */
  lemma {:induction false} CallsStay<V>(s: Console<V>, run: seq<Action<V>>)
    requires Runnable(s, run)
    ensures Ops(Exec(s, run).calls) == Ops(s.calls) + Begun(run)
    decreases |run|
  {
    hide Enabled, Apply, Ops;
    if run != [] {
      StepKeepsCalls(s, run[0]);
      CallsStay(Apply(s, run[0]), run[1..]);
    }
  }

  lemma SettledGives<V>(pc: CallPc<V>)
    requires Settled(pc)
    ensures Given(pc) == Message(OpOf(pc)) && Asked(pc) == Ask(OpOf(pc))
  {
  }

  lemma SettledGive<V>(calls: seq<CallPc<V>>)
    requires forall c :: 0 <= c < |calls| ==> Settled(calls[c])
    ensures Gather(Given<V>, calls) == Gather(Message<V>, Ops(calls))
    ensures Sum(Asked<V>, calls) == Sum(Ask<V>, Ops(calls))
  {
    hide Given, Message, Asked, Ask, OpOf, Gather, Sum;
    forall c | 0 <= c < |calls|
      ensures Given(calls[c]) == Message(Ops(calls)[c]) && Asked(calls[c]) == Ask(Ops(calls)[c])
    {
      SettledGives(calls[c]);
    }
    GatherAlike(Given<V>, calls, Message<V>, Ops(calls));
    SumAlike(Asked<V>, calls, Ask<V>, Ops(calls));
  }

  /** At rest the console has done what its callers began: it has printed exactly the messages of
      their `putOutputMsg`, and has been asked exactly for their `turnToTalk`. */
  lemma RestServesTheCalls<V(!new)>(run: seq<Action<V>>)
    requires Runnable(Initial(), run) && Stuck(Exec(Initial(), run))
    ensures var s := Exec(Initial(), run);
      multiset(Prints(s.trace)) == Gather(Message<V>, Begun(run)) && Asks(s.trace) == Sum(Ask<V>, Begun(run))
  {
    hide Stuck, Gather, Sum, Prints, Asks, Ops, LockInv, IoInv, TraceInv, TalkInv, Runnable, Exec;
    var s: Console<V> := Exec(Initial(), run);
    assert Reachable(s);
    hide Reachable;
    ReachableInv(s);
    StuckOnlyWhenIdle(s);
    RestIsPrinted(s);
    CallsStay(Initial(), run);
    NoCalls<V>();
    assert [] + Begun(run) == Begun(run);
    SettledGive(s.calls);
  }

  lemma NoCalls<V>()
    ensures Ops<V>(Initial<V>().calls) == []
  {
  }

  lemma OwnerNotStuck<V(!new)>(s: Console<V>)
    requires Inv(s) && s.owner != Nobody
    ensures !Stuck(s)
  {
    hide IoInv, TraceInv, TalkInv, CallsInv;
    if s.owner.Caller? {
      var c := s.owner.c;
      CallerMoves(s, c);
      assert Enabled(s, CallAct(c)) || Enabled(s, CallPush(c)) || Enabled(s, CallNotify(c));
    } else {
      IoMoves(s);
      assert Enabled(s, IoTest) || Enabled(s, IoBranch) || Enabled(s, IoEndTalk) || Enabled(s, IoPrint);
    }
  }

  lemma CallerMoves<V>(s: Console<V>, c: nat)
    requires LockInv(s) && s.owner == Caller(c)
    ensures Enabled(s, CallAct(c)) || Enabled(s, CallPush(c)) || Enabled(s, CallNotify(c))
  {
  }

  lemma IoMoves<V>(s: Console<V>)
    requires LockInv(s) && s.owner == Io
    ensures Enabled(s, IoTest) || Enabled(s, IoBranch) || Enabled(s, IoEndTalk) || Enabled(s, IoPrint)
  {
  }

  // ----- termination

  function CallRank<V>(pc: CallPc<V>): nat {
    match pc
    case Entering(_) => 10
    case Locked(_) => 9
    case Pushing(_) => 8
    case Owing(_) => 3
    case Returned(_) => 0
    case Answered(_) => 0
  }

  function IoRank(pc: IoPc): nat {
    match pc
    case Ready => 5
    case Signalled => 5
    case Testing => 4
    case Awake => 3
    case Asleep => 3
    case InTalk => 2
    case InQueue => 2
  }

  /** A message or a talk pays for one more round of the I/O thread. */
  function Measure<V>(s: Console<V>): nat {
    4 * |s.output| + (if s.talking then 4 else 0) + IoRank(s.io) + Sum(CallRank<V>, s.calls)
  }

  /** What a step may add to the measure, and one more. */
  function Allowance<V>(a: Action<V>): nat {
    if a.Begin? then 11 else if a.IoSpurious? then 3 else 0
  }

  function Allowances<V>(run: seq<Action<V>>): nat {
    if run == [] then 0 else Allowance(run[0]) + Allowances(run[1..])
  }

  /** Every step of the console's own lowers the measure; a new call and a spurious wakeup raise
      it by a constant. */
  lemma StepLowersMeasure<V>(s: Console<V>, a: Action<V>)
    requires IoInv(s) && Enabled(s, a)
    ensures Measure(Apply(s, a)) + 1 <= Measure(s) + Allowance(a)
  {
    match a
    case Begin(op) => SumAppend(CallRank<V>, s.calls, Entering(op));
    case CallLock(c) => CallRankFalls(s, a, c);
    case CallAct(c) => CallRankFalls(s, a, c);
    case CallPush(c) => CallRankFalls(s, a, c);
    case CallNotify(c) => CallRankFalls(s, a, c);
    case _ =>
  }

  lemma CallRankFalls<V>(s: Console<V>, a: Action<V>, c: nat)
    requires Enabled(s, a) && !ByIo(a) && !a.Begin? && a.c == c
    ensures Measure(Apply(s, a)) + 1 <= Measure(s)
  {
    var r := Apply(s, a);
    assert r.calls == s.calls[c := r.calls[c]];
    assert 4 * |r.output| + (if r.talking then 4 else 0) + IoRank(r.io) + CallRank(r.calls[c]) + 1
        <= 4 * |s.output| + (if s.talking then 4 else 0) + IoRank(s.io) + CallRank(s.calls[c]);
    hide Enabled, Apply, CallRank, IoRank;
    SumUpdate(CallRank<V>, s.calls, c, r.calls[c]);
  }

  /** Every run is bounded by its calls and its spurious wakeups, whatever the scheduler does. */
  lemma {:induction false} RunIsBounded<V>(s: Console<V>, run: seq<Action<V>>)
    requires Inv(s) && Runnable(s, run)
    ensures |run| + Measure(Exec(s, run)) <= Measure(s) + Allowances(run)
    decreases |run|
  {
    if run != [] {
      StepLowersMeasure(s, run[0]);
      InvPreserved(s, run[0]);
      RunIsBounded(Apply(s, run[0]), run[1..]);
    }
  }

  predicate Internal<V>(a: Action<V>) { !a.Begin? && !a.IoSpurious? }

  lemma {:induction false} ConsoleSettles<V(!new)>(s: Console<V>) returns (run: seq<Action<V>>)
    requires Inv(s)
    ensures Runnable(s, run) && Stuck(Exec(s, run))
    ensures forall a :: a in run ==> Internal(a)
    decreases Measure(s)
  {
    hide Inv, Measure, Enabled, Apply;
    if Stuck(s) {
      run := [];
    } else {
      var a :| Internal(a) && Enabled(s, a);
      MeasureFalls(s, a);
      InvPreserved(s, a);
      var rest := ConsoleSettles(Apply(s, a));
      run := [a] + rest;
    }
  }

  lemma MeasureFalls<V>(s: Console<V>, a: Action<V>)
    requires Inv(s) && Enabled(s, a) && Internal(a)
    ensures Measure(Apply(s, a)) < Measure(s)
  {
    StepLowersMeasure(s, a);
  }

  lemma {:induction false} Extend<V>(s: Console<V>, run: seq<Action<V>>, a: Action<V>)
    requires Runnable(s, run) && Enabled(Exec(s, run), a)
    ensures Runnable(s, run + [a]) && Exec(s, run + [a]) == Apply(Exec(s, run), a)
    decreases |run|
  {
    if run != [] {
      assert (run + [a])[1..] == run[1..] + [a];
      Extend(Apply(s, run[0]), run[1..], a);
    }
  }

  /** A step from a reachable state leads to one: a caller of the methods below stays within the
      theorems above. */
  lemma ReachStep<V(!new)>(s: Console<V>, a: Action<V>)
    requires Reachable(s) && Enabled(s, a)
    ensures Reachable(Apply(s, a))
  {
    var run: seq<Action<V>> :| Runnable(Initial(), run) && Exec(Initial(), run) == s;
    Extend(Initial(), run, a);
  }

  lemma {:induction false} ReachRun<V(!new)>(s: Console<V>, run: seq<Action<V>>)
    requires Reachable(s) && Runnable(s, run)
    ensures Reachable(Exec(s, run))
    decreases |run|
  {
    hide Reachable;
    if run != [] {
      ReachStep(s, run[0]);
      ReachRun(Apply(s, run[0]), run[1..]);
    }
  }

  /** Every message put is printed: the console comes to rest on its own, and whenever it does,
      all that was put has been printed in put order. */
  lemma EveryMessageIsPrinted<V(!new)>(s: Console<V>) returns (run: seq<Action<V>>)
    requires Reachable(s)
    ensures Runnable(s, run) && Stuck(Exec(s, run)) && forall a :: a in run ==> Internal(a)
    ensures forall other: seq<Action<V>> :: Runnable(s, other) && Stuck(Exec(s, other)) ==>
              Prints(Exec(s, other).trace) == Exec(s, other).put
  {
    ReachableInv(s);
    run := ConsoleSettles(s);
    forall other: seq<Action<V>> | Runnable(s, other) && Stuck(Exec(s, other))
      ensures Prints(Exec(s, other).trace) == Exec(s, other).put
    {
      ReachRun(s, other);
      RestIsPrinted(Exec(s, other));
    }
  }

  lemma RestIsPrinted<V(!new)>(s: Console<V>)
    requires Reachable(s) && Stuck(s)
    ensures Prints(s.trace) == s.put
  {
    StuckOnlyWhenIdle(s);
    PrintsExactlyOnce(s);
  }

  // ----- the object

  /** The monitor's fields, changed in place; `owner` stands for `data_mutex` and `inner` for
      the mutex inside `outputMsg`.  Each method is one step, specified by the step function. */
  class IOManger<V(==)> {
    var owner: Owner
    var inner: Owner
    var talking: bool
    var output: seq<V>
    var io: IoPc
    var calls: seq<CallPc<V>>
    ghost var put: seq<V>
    ghost var trace: seq<Event<V>>

    ghost function State(): Console<V>
      reads this
    {
      Console(owner, inner, talking, output, io, calls, put, trace)
    }

    constructor ()
      ensures State() == Initial()
    {
      owner, inner, talking, output, io, calls := Nobody, Nobody, false, [], Ready, [];
      put, trace := [], [];
    }

    method LockAsIo()
      requires Enabled(State(), IoLock)
      modifies this
      ensures State() == Apply(old(State()), IoLock)
    {
      io, owner := Testing, Io;
    }

    method TestWaitPredicate()
      requires Enabled(State(), IoTest)
      modifies this
      ensures State() == Apply(old(State()), IoTest)
    {
      if talking || output != [] {
        io := Awake;
      } else {
        io, owner := Asleep, Nobody;
      }
    }

    /** The branch of `run` after the wait. */
    method Branch()
      requires Enabled(State(), IoBranch)
      modifies this
      ensures State() == Apply(old(State()), IoBranch)
    {
      if !talking {
        io, inner := InQueue, Io;
      } else {
        talking := true;
        io, trace := InTalk, trace + [TalkBegan];
      }
    }

    /** The end of `handleTalk`. */
    method EndTalk()
      requires Enabled(State(), IoEndTalk)
      modifies this
      ensures State() == Apply(old(State()), IoEndTalk)
    {
      talking := false;
      io, owner, trace := Ready, Nobody, trace + [TalkEnded];
    }

    /** `handleOutputMsg`: try to pop, print what was popped. */
    method HandleOutputMsg()
      requires Enabled(State(), IoPrint)
      modifies this
      ensures State() == Apply(old(State()), IoPrint)
    {
      if output == [] {
        trace := trace + [FoundEmpty];
      } else {
        trace := trace + [Printed(output[0])];
        output := output[1..];
      }
      io, owner, inner := Ready, Nobody, Nobody;
    }

    method BeginCall(op: Op<V>) returns (c: nat)
      modifies this
      ensures c == old(|calls|) && State() == Apply(old(State()), Begin(op))
    {
      c := |calls|;
      calls := calls + [Entering(op)];
    }

    method LockAsCaller(c: nat)
      requires Enabled(State(), CallLock(c))
      modifies this
      ensures State() == Apply(old(State()), CallLock(c))
    {
      owner := Caller(c);
      calls := calls[c := Locked(calls[c].op)];
    }

    method TurnToTalkLocked(c: nat)
      requires Enabled(State(), CallAct(c)) && calls[c].op.TurnToTalk?
      modifies this
      ensures State() == Apply(old(State()), CallAct(c))
    {
      talking := true;
      trace := trace + [TalkAsked];
      calls := calls[c := Owing(calls[c].op)];
    }

    method IsTalkingLocked(c: nat) returns (answer: bool)
      requires Enabled(State(), CallAct(c)) && calls[c].op.IsTalking?
      modifies this
      ensures answer == old(talking) && State() == Apply(old(State()), CallAct(c))
    {
      answer := talking;
      calls := calls[c := Answered(answer)];
      owner := Nobody;
    }

    /** `putOutputMsg`, entering the nested queue. */
    method EnterQueue(c: nat)
      requires Enabled(State(), CallAct(c)) && calls[c].op.Put?
      modifies this
      ensures State() == Apply(old(State()), CallAct(c))
    {
      inner := Caller(c);
      calls := calls[c := Pushing(calls[c].op.message)];
    }

    /** The nested push, leaving the nested queue. */
    method PushOutput(c: nat)
      requires Enabled(State(), CallPush(c))
      modifies this
      ensures State() == Apply(old(State()), CallPush(c))
    {
      var message := calls[c].message;
      output := output + [message];
      put := put + [message];
      inner := Nobody;
      calls := calls[c := Owing(Put(message))];
    }

    /** `data_cond.notify_one()`, then unlock. */
    method NotifyAndUnlock(c: nat)
      requires Enabled(State(), CallNotify(c))
      modifies this
      ensures State() == Apply(old(State()), CallNotify(c))
    {
      if io == Asleep {
        io := Signalled;
      }
      owner := Nobody;
      calls := calls[c := Returned(calls[c].op)];
    }
  }
}
