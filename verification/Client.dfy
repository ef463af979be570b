/** The sender thread: it pops messages off the outgoing queue, copies each one into a buffer it
    reuses and hands it to `send`, until it meets the stop message. */
module Client {
  import opened Wrappers
  import opened SeqAbleObj
  import Counting
  import Q = ConcQueue

  const MAX_LEN_OF_SEND_BUFF: nat := 512

  /** What is handed to `send`: a socket and the bytes. */
  datatype Packet = Packet(socket: int, bytes: string)

  /** The two builds: the server answers to the message's own descriptor, the client always
      sends the whole buffer to its one connection. */
  datatype Build = ServerBuild | ClientBuild(client: int)

  /** A popped value; None is a null pointer. */
  type Item = Option<Msg>

  predicate IsStop(v: Item) { v.Some? && v.value.msgType == MSG_BUTTON }

  /** The fields are C integers of 32 bits. */
  predicate Object(v: Item) {
    v.Some? ==> IsUint32(v.value.msgType) && IsInt32(v.value.id) && IsInt32(v.value.recverId) && IsInt32(v.value.fd)
  }

  function PacketOf(build: Build, m: Msg): (p: Packet)
    ensures |p.bytes| >= OBJ_SIZE
  {
    match build
    case ServerBuild => Packet(m.fd, Record(m))
    case ClientBuild(client) => Packet(client, Record(m) + Zeros(MAX_LEN_OF_SEND_BUFF - OBJ_SIZE))
  }

  /** The packets of one run of the loop. */
  function Sends(build: Build, inbox: seq<Item>): (p: seq<Packet>)
    ensures forall i :: 0 <= i < |p| ==> |p[i].bytes| >= OBJ_SIZE
  {
    if inbox == [] || IsStop(inbox[0]) then []
    else (if inbox[0].Some? then [PacketOf(build, inbox[0].value)] else []) + Sends(build, inbox[1..])
  }

  function Messages(inbox: seq<Item>): seq<Msg> {
    if inbox == [] then []
    else (if inbox[0].Some? then [inbox[0].value] else []) + Messages(inbox[1..])
  }

  /** What the receiving side makes of the packets. */
  function Read(packets: seq<Packet>): seq<Msg>
    requires forall i :: 0 <= i < |packets| ==> |packets[i].bytes| >= OBJ_SIZE
  {
    if packets == [] then [] else [TransBuff2Obj(ZERO_MSG, packets[0].bytes)] + Read(packets[1..])
  }

  /** The receiver does not copy `len`. */
  function WithoutLen(ms: seq<Msg>): seq<Msg> {
    if ms == [] then [] else [ms[0].(len := 0)] + WithoutLen(ms[1..])
  }

  lemma PacketIsRead(build: Build, m: Msg)
    requires Object(Some(m))
    ensures TransBuff2Obj(ZERO_MSG, PacketOf(build, m).bytes) == m.(len := 0)
  {
    match build
    case ServerBuild =>
      WireRoundTrip(m, ZERO_MSG, []);
      assert Record(m) + [] == Record(m);
    case ClientBuild(_) =>
      WireRoundTrip(m, ZERO_MSG, Zeros(MAX_LEN_OF_SEND_BUFF - OBJ_SIZE));
  }

  /** Without a stop message, the packets read at the other end are the messages: each non-null
      one exactly once, in order. */
  lemma {:induction false} EveryMessageIsSent(build: Build, inbox: seq<Item>)
    requires forall v :: v in inbox ==> Object(v) && !IsStop(v)
    ensures Read(Sends(build, inbox)) == WithoutLen(Messages(inbox))
  {
    hide TransBuff2Obj, PacketOf;
    if inbox != [] {
      EveryMessageIsSent(build, inbox[1..]);
      var (p, ms) := (Sends(build, inbox[1..]), Messages(inbox[1..]));
      if inbox[0].Some? {
        PacketIsRead(build, inbox[0].value);
        assert Sends(build, inbox)[1..] == p && Messages(inbox)[1..] == ms;
      } else {
        assert Sends(build, inbox) == p && Messages(inbox) == ms;
      }
    }
  }

  lemma {:induction false} NothingAfterStop(build: Build, before: seq<Item>, stop: Item, after: seq<Item>)
    requires IsStop(stop)
    ensures Sends(build, before + [stop] + after) == Sends(build, before)
  {
    var inbox := before + [stop] + after;
    if before == [] {
      assert inbox[0] == stop;
    } else {
      assert inbox[1..] == before[1..] + [stop] + after;
      NothingAfterStop(build, before[1..], stop, after);
    }
  }

  /** What was popped before the stop message. */
  function BeforeStop(inbox: seq<Item>): seq<Item> {
    if inbox == [] || IsStop(inbox[0]) then [] else [inbox[0]] + BeforeStop(inbox[1..])
  }

  /** Where a packet goes and how long it is: the server sends the record alone, to the descriptor
      inside it; the client sends its whole buffer to its one connection. */
  predicate Addressed(build: Build, p: Packet, m: Msg) {
    match build
    case ServerBuild => |p.bytes| == 84 && p.socket == m.fd == Int32At(p.bytes, 16)
    case ClientBuild(client) => |p.bytes| == 512 && p.socket == client && m.fd == Int32At(p.bytes, 16)
  }

  lemma PacketIsAddressed(build: Build, m: Msg)
    requires Object(Some(m))
    ensures Addressed(build, PacketOf(build, m), m)
  {
    PacketIsRead(build, m);
    assert TransBuff2Obj(ZERO_MSG, PacketOf(build, m).bytes).fd == m.fd;
  }

  lemma FirstGoesOut(build: Build, inbox: seq<Item>)
    requires inbox != [] && !IsStop(inbox[0])
    ensures Sends(build, inbox)
         == (if inbox[0].Some? then [PacketOf(build, inbox[0].value)] else []) + Sends(build, inbox[1..])
    ensures Messages(BeforeStop(inbox))
         == (if inbox[0].Some? then [inbox[0].value] else []) + Messages(BeforeStop(inbox[1..]))
  {
    hide PacketOf, IsStop;
    assert BeforeStop(inbox)[1..] == BeforeStop(inbox[1..]);
  }

  /** There is one packet for each non-null message before the stop, in order, and each goes to
      its own message's address. */
  lemma {:induction false} EachReachesItsSocket(build: Build, inbox: seq<Item>)
    requires forall v :: v in inbox ==> Object(v)
    ensures var (p, ms) := (Sends(build, inbox), Messages(BeforeStop(inbox)));
      |p| == |ms| && forall i :: 0 <= i < |p| ==> Addressed(build, p[i], ms[i])
  {
    if inbox != [] && !IsStop(inbox[0]) {
      FirstGoesOut(build, inbox);
      hide Addressed, PacketOf, Object, IsStop, Sends, Messages, BeforeStop;
      EachReachesItsSocket(build, inbox[1..]);
      if inbox[0].Some? {
        PacketIsAddressed(build, inbox[0].value);
        OneMoreAddressed(build, inbox[0].value, Sends(build, inbox[1..]), Messages(BeforeStop(inbox[1..])));
      }
    }
  }

  lemma OneMoreAddressed(build: Build, m: Msg, p: seq<Packet>, ms: seq<Msg>)
    requires Addressed(build, PacketOf(build, m), m)
    requires |p| == |ms| && forall i :: 0 <= i < |p| ==> Addressed(build, p[i], ms[i])
    ensures var (q, ns) := ([PacketOf(build, m)] + p, [m] + ms);
      forall i :: 0 <= i < |q| ==> Addressed(build, q[i], ns[i])
  {
    hide Addressed, PacketOf;
    var (q, ns) := ([PacketOf(build, m)] + p, [m] + ms);
    assert forall i :: 1 <= i < |q| ==> q[i] == p[i - 1] && ns[i] == ms[i - 1];
  }

  lemma SendsFrom(build: Build, inbox: seq<Item>, k: nat)
    requires k < |inbox|
    ensures Sends(build, inbox[k..])
         == if IsStop(inbox[k]) then []
            else (if inbox[k].Some? then [PacketOf(build, inbox[k].value)] else []) + Sends(build, inbox[k + 1..])
  {
    hide PacketOf;
    assert inbox[k..][1..] == inbox[k + 1..];
  }

  lemma NothingLeft(build: Build, inbox: seq<Item>)
    ensures Sends(build, inbox[|inbox|..]) == []
  {
  }

  // ----- the sender and the queue together

  /** One sender on one queue.  `inbox` is what its pops have returned so far, `popping` the call
      it is in. */
  datatype System = System(q: Q.Queue<Item>, inbox: seq<Item>, popping: Option<nat>, stopped: bool)

  datatype Step = Queued(a: Q.Action<Item>) | CallPop | Receive

  /** Everybody else pushes: the handlers and the console with `push`, which never carries the
      stop message, and the shutdown with `waitPushTillEmpty`. */
  predicate Producer(op: Q.Op<Item>) {
    (op.Push? && Object(op.value) && !IsStop(op.value)) || (op.WaitPush? && Object(op.value))
  }

  predicate Enabled(s: System, step: Step) {
    match step
    case Queued(a) => Q.Enabled(s.q, a) && (a.Begin? ==> Producer(a.op))
    case CallPop => !s.stopped && s.popping.None?
    case Receive => s.popping.Some? && s.popping.value < |s.q.agents| && s.q.agents[s.popping.value].Returned?
  }

  function Next(s: System, step: Step): System
    requires Enabled(s, step)
  {
    match step
    case Queued(a) => s.(q := Q.Apply(s.q, a))
    case CallPop => s.(q := Q.Apply(s.q, Q.Begin(Q.Pop)), popping := Some(|s.q.agents|))
    case Receive =>
      match s.q.agents[s.popping.value].outcome
      case Got(v) => s.(inbox := s.inbox + [v], popping := None, stopped := IsStop(v))
      case _ => s.(popping := None)
  }

  function Start(): System { System(Q.Initial(), [], None, false) }

  predicate Runnable(s: System, run: seq<Step>)
    decreases |run|
  {
    run == [] || (Enabled(s, run[0]) && Runnable(Next(s, run[0]), run[1..]))
  }

  function Exec(s: System, run: seq<Step>): System
    requires Runnable(s, run)
    decreases |run|
  {
    if run == [] then s else Exec(Next(s, run[0]), run[1..])
  }

  ghost predicate Reachable(s: System) {
    exists run :: Runnable(Start(), run) && Exec(Start(), run) == s
  }

  /** What the sender's current call has popped and not yet returned. */
  function InHand(s: System): seq<Item> {
    if s.popping.Some? && s.popping.value < |s.q.agents| then
      match s.q.agents[s.popping.value]
      case OwesEmpty(_, v) => [v]
      case Returned(_, Got(v)) => [v]
      case _ => []
    else []
  }

  ghost predicate CallsInv(s: System) {
    && (s.popping.Some? ==> s.popping.value < |s.q.agents| && s.q.agents[s.popping.value].op.Pop?)
    && (forall t :: 0 <= t < |s.q.agents| && s.popping != Some(t) ==>
          Producer(s.q.agents[t].op) || (s.q.agents[t].op.Pop? && s.q.agents[t].Returned?))
  }

  /** The sender has everything that was popped. */
  ghost predicate InboxInv(s: System) {
    && s.q.popped == s.inbox + InHand(s)
    && (s.popping.Some? ==> !s.stopped)
  }

  ghost predicate StopInv(s: System) {
    && (forall i :: 0 <= i < |s.q.pushed| && IsStop(s.q.pushed[i]) ==> i in s.q.sentinels)
    && (forall i :: 0 <= i < |s.q.pushed| ==> Object(s.q.pushed[i]))
    && (s.stopped <==> exists i :: 0 <= i < |s.inbox| && IsStop(s.inbox[i]))
    && (forall i :: 0 <= i < |s.inbox| - 1 ==> !IsStop(s.inbox[i]))
  }

  ghost predicate Inv(s: System) {
    Q.Reachable(s.q) && CallsInv(s) && InboxInv(s) && StopInv(s)
  }

  lemma ActKeepsInbox(s: System, t: nat)
    requires Q.Inv(s.q) && CallsInv(s) && InboxInv(s) && Enabled(s, Queued(Q.Act(t)))
    ensures InboxInv(Next(s, Queued(Q.Act(t))))
  {
    hide Object, IsStop, Q.LockInv, Q.DeliveryInv, Q.EmptyInv, Q.GivenInv, Q.FifoInv;
    var r := Next(s, Queued(Q.Act(t)));
    assert Q.AgentsInv(s.q);
    assert Q.AgentInv(s.q, s.q.agents[t]);
    if s.popping == Some(t) {
      assert InHand(s) == [] && |s.q.data| > 0;
      assert InHand(r) == [s.q.data[0]];
    } else {
      assert r.q.popped == s.q.popped && InHand(r) == InHand(s);
    }
  }

  lemma NotifyKeepsInbox(s: System, t: nat, sleeper: Option<nat>)
    requires CallsInv(s) && InboxInv(s) && Enabled(s, Queued(Q.Notify(t, sleeper)))
    ensures InboxInv(Next(s, Queued(Q.Notify(t, sleeper))))
  {
    hide Object, IsStop;
    assert InHand(Next(s, Queued(Q.Notify(t, sleeper)))) == InHand(s);
  }

  lemma InboxPreserved(s: System, a: Q.Action<Item>)
    requires Q.Inv(s.q) && CallsInv(s) && InboxInv(s) && Enabled(s, Queued(a))
    ensures InboxInv(Next(s, Queued(a)))
  {
    hide Object, IsStop, Q.Inv;
    match a
    case Act(t) => ActKeepsInbox(s, t);
    case Notify(t, sleeper) => NotifyKeepsInbox(s, t, sleeper);
    case _ => assert InHand(Next(s, Queued(a))) == InHand(s);
  }

  lemma CallsPreserved(s: System, a: Q.Action<Item>)
    requires CallsInv(s) && Enabled(s, Queued(a))
    ensures CallsInv(Next(s, Queued(a)))
  {
    hide Object, IsStop;
  }

  lemma StopPreserved(s: System, a: Q.Action<Item>)
    requires Q.Inv(s.q) && CallsInv(s) && StopInv(s) && Enabled(s, Queued(a))
    ensures StopInv(Next(s, Queued(a)))
  {
    hide Object, IsStop;
    assert Q.FifoInv(s.q);
    hide Q.Inv, Q.FifoInv;
    if a.Act? {
      assert s.popping == Some(a.t) ==> s.q.agents[a.t].op.Pop?;
    }
  }

  lemma ReceiveKeepsInv(s: System)
    requires Q.Inv(s.q) && CallsInv(s) && InboxInv(s) && StopInv(s) && Enabled(s, Receive)
    ensures var r := Next(s, Receive); CallsInv(r) && InboxInv(r) && StopInv(r)
  {
    hide Object, IsStop;
    var r := Next(s, Receive);
    var t := s.popping.value;
    assert Q.AgentsInv(s.q);
    assert Q.AgentInv(s.q, s.q.agents[t]);
    if s.q.agents[t].outcome.Got? {
      assert r.inbox[|s.inbox|] == s.q.agents[t].outcome.value;
    }
  }

  lemma CallKeepsInv(s: System)
    requires CallsInv(s) && InboxInv(s) && StopInv(s) && Enabled(s, CallPop)
    ensures var r := Next(s, CallPop); CallsInv(r) && InboxInv(r) && StopInv(r)
  {
    hide Object, IsStop;
  }

  lemma StepKeepsInv(s: System, step: Step)
    requires Inv(s) && Enabled(s, step)
    ensures Inv(Next(s, step))
  {
    hide CallsInv, InboxInv, StopInv, Q.Inv, Q.Apply;
    Q.ReachableInv(s.q);
    match step
    case Queued(a) =>
      var q := Q.ReachStep(s.q, a);
      InboxPreserved(s, a);
      CallsPreserved(s, a);
      StopPreserved(s, a);
    case CallPop =>
      var q := Q.ReachStep(s.q, Q.Begin(Q.Pop));
      CallKeepsInv(s);
    case Receive =>
      ReceiveKeepsInv(s);
  }

  lemma {:induction false} RunKeepsInv(s: System, run: seq<Step>)
    requires Inv(s) && Runnable(s, run)
    ensures Inv(Exec(s, run))
    decreases |run|
  {
    if run != [] {
      StepKeepsInv(s, run[0]);
      RunKeepsInv(Next(s, run[0]), run[1..]);
    }
  }

  lemma ReachableInv(s: System)
    requires Reachable(s)
    ensures Inv(s)
  {
    var run :| Runnable(Start(), run) && Exec(Start(), run) == s;
    var none: seq<Q.Action<Item>> := [];
    assert Q.Runnable(Q.Initial(), none) && Q.Exec(Q.Initial(), none) == Q.Initial();
    RunKeepsInv(Start(), run);
  }

  // ----- the shutdown

  /** The inbox of a stopped sender: the pushes up to the first stop message. */
  lemma StoppedInbox(s: System) returns (k: nat)
    requires Inv(s) && s.stopped
    ensures k in s.q.sentinels && k < |s.q.pushed| && IsStop(s.q.pushed[k])
    ensures s.inbox == s.q.pushed[..k] + [s.q.pushed[k]]
    ensures forall i :: 0 <= i < k ==> !IsStop(s.q.pushed[i])
    ensures forall i :: 0 <= i < |s.q.pushed| ==> Object(s.q.pushed[i])
    ensures s.q.popped == s.q.pushed[..k + 1] && s.q.data == s.q.pushed[k + 1..]
  {
    hide Object, IsStop, Q.Reachable;
    Q.RefinesFifo(s.q);
    var (pushed, inbox, data) := (s.q.pushed, s.inbox, s.q.data);
    assert InHand(s) == [] && s.q.popped == inbox by { assert s.q.popped == inbox + []; }
    var i :| 0 <= i < |inbox| && IsStop(inbox[i]);
    k := |inbox| - 1;
    SplitLast(pushed, inbox, data);
    assert IsStop(pushed[k]);
    forall i | 0 <= i < k ensures !IsStop(pushed[i]) {
      assert pushed[i] == inbox[i];
    }
  }

  lemma SplitLast<T>(all: seq<T>, front: seq<T>, back: seq<T>)
    requires all == front + back && front != []
    ensures var k := |front| - 1;
      && front == all[..k] + [all[k]] && front == all[..k + 1] && back == all[k + 1..]
      && all[k] == front[k]
  {
  }

  /** The sender stops only on a message pushed by waitPushTillEmpty, and by then every message
      pushed before it has been sent exactly once, in push order; whatever is pushed later stays
      in the queue. */
  lemma SentinelShutdown(s: System, build: Build) returns (k: nat)
    requires Reachable(s) && s.stopped
    ensures k in s.q.sentinels && k < |s.q.pushed| && IsStop(s.q.pushed[k])
    ensures forall i :: 0 <= i < k ==> !IsStop(s.q.pushed[i])
    ensures Sends(build, s.inbox) == Sends(build, s.q.pushed[..k])
    ensures Read(Sends(build, s.inbox)) == WithoutLen(Messages(s.q.pushed[..k]))
    ensures s.q.popped == s.q.pushed[..k + 1] && s.q.data == s.q.pushed[k + 1..]
  {
    hide Object, IsStop, Sends, Read, WithoutLen, Messages, Inv;
    ReachableInv(s);
    k := StoppedInbox(s);
    var before := s.q.pushed[..k];
    NothingAfterStop(build, before, s.q.pushed[k], []);
    assert s.inbox == before + [s.q.pushed[k]] + [];
    forall v | v in before ensures Object(v) && !IsStop(v) {
      var i :| 0 <= i < k && before[i] == v;
      assert s.q.pushed[i] == v;
    }
    EveryMessageIsSent(build, before);
  }

  lemma {:induction false} RunReaches(s: System, run: seq<Step>, more: seq<Step>)
    requires Runnable(s, run) && Runnable(Exec(s, run), more)
    ensures Runnable(s, run + more) && Exec(s, run + more) == Exec(Exec(s, run), more)
    decreases |run|
  {
    hide Enabled, Next;
    if run == [] {
      assert run + more == more;
    } else {
      assert (run + more)[0] == run[0] && (run + more)[1..] == run[1..] + more;
      RunReaches(Next(s, run[0]), run[1..], more);
    }
  }

  lemma {:induction false} HistoryGrows(s: System, run: seq<Step>)
    requires Runnable(s, run)
    ensures s.q.pushed <= Exec(s, run).q.pushed
    decreases |run|
  {
    hide Enabled, Next;
    if run != [] {
      PushedGrows(s, run[0]);
      HistoryGrows(Next(s, run[0]), run[1..]);
    }
  }

  lemma ReadsFirst(items: seq<Item>)
    requires items != []
    ensures WithoutLen(Messages(items))
         == (if items[0].Some? then [items[0].value.(len := 0)] else []) + WithoutLen(Messages(items[1..]))
  {
    var rest := Messages(items[1..]);
    if items[0].Some? {
      assert ([items[0].value] + rest)[1..] == rest;
    } else {
      assert Messages(items) == rest;
    }
  }

  lemma {:induction false} ReadsOf(items: seq<Item>, more: seq<Item>)
    ensures WithoutLen(Messages(items)) <= WithoutLen(Messages(items + more))
  {
    hide IsStop;
    if items != [] {
      assert (items + more)[0] == items[0] && (items + more)[1..] == items[1..] + more;
      ReadsOf(items[1..], more);
      ReadsFirst(items);
      ReadsFirst(items + more);
    }
  }

  lemma {:induction false} ReadsItem(items: seq<Item>, m: Msg)
    requires Some(m) in items
    ensures m.(len := 0) in WithoutLen(Messages(items))
  {
    if items[0] == Some(m) {
      ReadsFirst(items);
    } else {
      ReadsItem(items[1..], m);
      ReadsFirst(items);
    }
  }

  /** Once the sender has stopped, it has sent all the pushes that were complete at any earlier
      moment without a stop message: they come first, in push order, and there are exactly as many
      of each value as there are calls that have pushed it. */
  lemma CompletedPushesAreSent(s: System, run: seq<Step>, build: Build)
    requires Reachable(s) && Runnable(s, run) && Exec(s, run).stopped
    requires forall v :: v in s.q.pushed ==> !IsStop(v)
    ensures multiset(s.q.pushed) == Counting.Gather(Q.Given<Item>, s.q.agents)
    ensures WithoutLen(Messages(s.q.pushed)) <= Read(Sends(build, Exec(s, run).inbox))
  {
    hide Object, IsStop, Sends, Read, WithoutLen, Messages, Inv, Reachable, Runnable, Exec;
    hide Q.Reachable, Q.Given, Counting.Gather;
    ReachableInv(s);
    InvReaches(s);
    Q.RefinesFifo(s.q);
    LaterReachable(s, run);
    var r := Exec(s, run);
    var k := SentinelShutdown(r, build);
    HistoryGrows(s, run);
    StopComesLater(s.q.pushed, r.q.pushed, k);
    ReadsOf(s.q.pushed, r.q.pushed[|s.q.pushed|..k]);
    assert r.q.pushed[..k] == s.q.pushed + r.q.pushed[|s.q.pushed|..k];
  }

  lemma LaterReachable(s: System, run: seq<Step>)
    requires Reachable(s) && Runnable(s, run)
    ensures Reachable(Exec(s, run))
  {
    hide Enabled, Next;
    var start :| Runnable(Start(), start) && Exec(Start(), start) == s;
    RunReaches(Start(), start, run);
  }

  lemma InvReaches(s: System)
    requires Inv(s)
    ensures Q.Reachable(s.q)
  {
  }

  lemma StopComesLater(pushed: seq<Item>, all: seq<Item>, k: nat)
    requires pushed <= all && k < |all| && IsStop(all[k]) && forall v :: v in pushed ==> !IsStop(v)
    ensures |pushed| <= k
  {
    hide IsStop;
    forall i | 0 <= i < |pushed| ensures !IsStop(all[i]) {
      assert pushed[i] in pushed && all[i] == pushed[i];
    }
  }

  /** The same for one call: a message whose push was complete before any stop message was pushed
      is among those the other side reads. */
  lemma CompletedPushIsSent(s: System, t: nat, m: Msg, run: seq<Step>, build: Build)
    requires Reachable(s) && Runnable(s, run) && Exec(s, run).stopped
    requires forall v :: v in s.q.pushed ==> !IsStop(v)
    requires t < |s.q.agents| && s.q.agents[t].op == Q.Push(Some(m)) && Q.Acted(s.q.agents[t])
    ensures m.(len := 0) in Read(Sends(build, Exec(s, run).inbox))
  {
    hide Object, IsStop, Sends, Read, WithoutLen, Messages, Inv, Enabled, Next, Q.Reachable;
    CompletedPushesAreSent(s, run, build);
    assert Q.Given(s.q.agents[t])[Some(m)] == 1;
    hide Q.Given, Counting.Gather;
    Counting.GatherUpdate(Q.Given<Item>, s.q.agents, t, s.q.agents[t]);
    assert multiset(s.q.pushed)[Some(m)] >= 1;
    ReadsItem(s.q.pushed, m);
  }

  lemma FifoOf(q: Q.Queue<Item>)
    requires Q.Inv(q)
    ensures q.pushed == q.popped + q.data
  {
    hide Q.LockInv, Q.AgentsInv, Q.DeliveryInv, Q.GivenInv, Q.EmptyInv;
  }

  lemma InboxSoFar(s: System)
    requires InboxInv(s) && StopInv(s) && s.q.pushed == s.q.popped + s.q.data && !s.stopped
    ensures s.inbox <= s.q.pushed && |s.q.popped| <= |s.inbox| + 1
    ensures forall v :: v in s.inbox ==> Object(v) && !IsStop(v)
  {
    hide Object, IsStop;
    forall v | v in s.inbox ensures Object(v) && !IsStop(v) {
      var i :| 0 <= i < |s.inbox| && s.inbox[i] == v;
      assert s.inbox[i] == s.q.pushed[i];
    }
  }

  /** Before it stops, the sender has sent what its pops returned, and has missed no message. */
  lemma SentSoFar(s: System, build: Build)
    requires Reachable(s) && !s.stopped
    ensures s.inbox <= s.q.pushed
    ensures Read(Sends(build, s.inbox)) == WithoutLen(Messages(s.inbox))
    ensures |s.q.popped| <= |s.inbox| + 1
  {
    hide Object, IsStop, Sends, Read, WithoutLen, Messages, InboxInv, StopInv, CallsInv, Q.Reachable, Q.Inv;
    ReachableInv(s);
    Q.ReachableInv(s.q);
    FifoOf(s.q);
    InboxSoFar(s);
    EveryMessageIsSent(build, s.inbox);
  }

  /** A step of the system itself: no new push and no spurious wakeup. */
  predicate Internal(step: Step) { step.Queued? ==> Q.Internal(step.a) }

  ghost predicate Stuck(s: System) {
    forall step :: Internal(step) ==> !Enabled(s, step)
  }

  lemma StuckQueue(s: System)
    requires Inv(s) && Stuck(s)
    ensures Q.Stuck(s.q) && Q.Disciplined(s.q)
  {
    forall a: Q.Action<Item> | Q.Internal(a) ensures !Q.Enabled(s.q, a) {
      assert Internal(Queued(a));
      assert !Enabled(s, Queued(a));
    }
  }

  lemma StuckHasStopped(s: System)
    requires Inv(s) && Stuck(s)
    ensures s.stopped <==> exists i :: 0 <= i < |s.q.pushed| && IsStop(s.q.pushed[i])
    ensures !s.stopped ==> s.inbox == s.q.pushed && s.q.data == []
  {
    hide Object, IsStop;
    StuckQueue(s);
    Q.StuckOnlyWhenBlocked(s.q);
    Q.RefinesFifo(s.q);
    if s.stopped {
      var i :| 0 <= i < |s.inbox| && IsStop(s.inbox[i]);
      assert s.inbox[i] == s.q.pushed[i];
    } else {
      assert !Enabled(s, CallPop);
      assert !Enabled(s, Receive);
      var t := s.popping.value;
      assert Q.Blocked(s.q, s.q.agents[t]);
      assert s.q.pushed == s.inbox;
    }
  }

  /** The shutdown is never missed: when nothing more can happen, the sender has stopped exactly
      if a stop message was pushed; otherwise it sleeps on an empty queue with everything sent. */
  lemma SentinelIsNeverMissed(s: System)
    requires Reachable(s) && Stuck(s)
    ensures s.stopped <==> exists i :: 0 <= i < |s.q.pushed| && IsStop(s.q.pushed[i])
    ensures !s.stopped ==> s.inbox == s.q.pushed && s.q.data == []
  {
    hide Inv, IsStop;
    ReachableInv(s);
    StuckHasStopped(s);
  }

  // ----- termination

  /** A call that has still to push. */
  function ToPush(pc: Q.Pc<Item>): nat {
    if Q.Adds(pc.op) && !pc.OwesData? && !pc.OwesEmpty? && !pc.Returned? then 1 else 0
  }

  /** The values that the sender has still to receive, those of calls under way included. */
  function Unread(s: System): int {
    |s.q.pushed| + Counting.Sum(ToPush, s.q.agents) - |s.inbox|
  }

  function Measure(s: System): int {
    Q.Measure(s.q) + 9 * Unread(s) + if s.popping.None? && !s.stopped then 8 else 0
  }

  function Allowance(step: Step): nat {
    if step.Queued? && step.a.Begin? then 19 else if step.Queued? && step.a.Spurious? then 3 else 0
  }

  function Allowances(run: seq<Step>): nat {
    if run == [] then 0 else Allowance(run[0]) + Allowances(run[1..])
  }

  lemma QueueStepReads(s: System, a: Q.Action<Item>)
    requires Enabled(s, Queued(a))
    ensures Unread(Next(s, Queued(a))) <= Unread(s) + if a.Begin? then 1 else 0
  {
    hide Object, IsStop;
    match a
    case Begin(op) => Counting.SumAppend(ToPush, s.q.agents, Q.Entering(op));
    case Notify(t, sleeper) => Q.NotifySum(ToPush, s.q, t, sleeper);
    case _ => OwnStepReads(s.q, a);
  }

  lemma OwnStepReads(q: Q.Queue<Item>, a: Q.Action<Item>)
    requires Q.Enabled(q, a) && !a.Begin? && !a.Notify?
    ensures var r := Q.Apply(q, a);
      |r.pushed| + Counting.Sum(ToPush, r.agents) <= |q.pushed| + Counting.Sum(ToPush, q.agents)
  {
    var r := Q.Apply(q, a);
    var pc := r.agents[a.t];
    assert r.agents == q.agents[a.t := pc];
    assert |r.pushed| + ToPush(pc) <= |q.pushed| + ToPush(q.agents[a.t]);
    hide Q.Enabled, Q.Apply, ToPush;
    Counting.SumUpdate(ToPush, q.agents, a.t, pc);
  }

  /** Every step of the system's own lowers the measure. */
  lemma StepLowersMeasure(s: System, step: Step)
    requires Inv(s) && Enabled(s, step)
    ensures Measure(Next(s, step)) + 1 <= Measure(s) + Allowance(step)
  {
    hide Object, IsStop;
    match step
    case Queued(a) =>
      Q.StepLowersMeasure(s.q, a);
      QueueStepReads(s, a);
    case CallPop =>
      Counting.SumAppend(Q.AgentRank<Item>, s.q.agents, Q.Entering(Q.Pop));
      Counting.SumAppend(ToPush, s.q.agents, Q.Entering(Q.Pop));
    case Receive =>
      PopsReturnValues(s);
  }

  lemma PopsReturnValues(s: System)
    requires Inv(s) && Enabled(s, Receive)
    ensures s.q.agents[s.popping.value].outcome.Got?
  {
    hide Object, IsStop;
    Q.ReachableInv(s.q);
    assert Q.AgentsInv(s.q);
    assert Q.AgentInv(s.q, s.q.agents[s.popping.value]);
  }

  lemma MeasureIsPositive(s: System)
    requires Inv(s)
    ensures Measure(s) >= 0
  {
    hide Object, IsStop;
    Q.RefinesFifo(s.q);
  }

  /** Every run from a reachable state is bounded by the calls that begin in it and its spurious
      wakeups: the sender cannot be kept from its stop message by a schedule. */
  lemma {:induction false} RunIsBounded(s: System, run: seq<Step>)
    requires Inv(s) && Runnable(s, run)
    ensures |run| <= Measure(s) + Allowances(run)
    decreases |run|
  {
    hide Inv, Measure;
    if run == [] {
      MeasureIsPositive(s);
    } else {
      StepLowersMeasure(s, run[0]);
      StepKeepsInv(s, run[0]);
      RunIsBounded(Next(s, run[0]), run[1..]);
    }
  }

  /** Without new calls the system comes to rest, and then the sender has stopped if a stop
      message was pushed, and has everything otherwise. */
  lemma {:induction false} SenderSettles(s: System) returns (run: seq<Step>)
    requires Inv(s)
    ensures Runnable(s, run) && Stuck(Exec(s, run)) && Inv(Exec(s, run))
    ensures forall step :: step in run ==> Internal(step)
    ensures s.q.pushed <= Exec(s, run).q.pushed
    decreases Measure(s)
  {
    hide Inv, Measure, Enabled, Next;
    if Stuck(s) {
      run := [];
    } else {
      var step :| Internal(step) && Enabled(s, step);
      MeasureIsPositive(s);
      StepLowersMeasure(s, step);
      StepKeepsInv(s, step);
      PushedGrows(s, step);
      var rest := SenderSettles(Next(s, step));
      run := [step] + rest;
    }
  }

  lemma PushedGrows(s: System, step: Step)
    requires Enabled(s, step)
    ensures s.q.pushed <= Next(s, step).q.pushed
  {
    hide Object, IsStop;
  }

  /** A stop message once pushed, the sender can stop without anybody's further call. */
  lemma SenderStops(s: System, i: nat) returns (run: seq<Step>)
    requires Reachable(s) && i < |s.q.pushed| && IsStop(s.q.pushed[i])
    ensures Runnable(s, run) && Exec(s, run).stopped && Stuck(Exec(s, run))
    ensures forall step :: step in run ==> Internal(step)
  {
    hide Inv, Measure, Enabled, Next, Object, IsStop;
    ReachableInv(s);
    run := SenderSettles(s);
    var r := Exec(s, run);
    assert r.q.pushed[i] == s.q.pushed[i];
    StuckHasStopped(r);
  }

  // ----- the object

  class Client {
    const build: Build
    /** The calls of `send` so far. */
    var sent: seq<Packet>
    var closed: bool

    constructor (build: Build)
      ensures this.build == build && sent == [] && !closed
    {
      this.build, sent, closed := build, [], false;
    }

    /** `memset` of the whole buffer, then `memcpy` of the object into its front. */
    method Fill(buf: array<char>, m: Msg)
      requires buf.Length == MAX_LEN_OF_SEND_BUFF
      modifies buf
      ensures buf[..] == Record(m) + Zeros(MAX_LEN_OF_SEND_BUFF - OBJ_SIZE)
    {
      for i := 0 to MAX_LEN_OF_SEND_BUFF
        invariant forall k :: 0 <= k < i ==> buf[k] == '\0'
      {
        buf[i] := '\0';
      }
      var record := Record(m);
      for i := 0 to OBJ_SIZE
        invariant forall k :: 0 <= k < i ==> buf[k] == record[k]
        invariant forall k :: OBJ_SIZE <= k < MAX_LEN_OF_SEND_BUFF ==> buf[k] == '\0'
      {
        buf[i] := record[i];
      }
    }

    /** The loop, over the values its pops return; it ends at the stop message, or is still
        waiting for the next pop. */
    method Run(inbox: seq<Item>) returns (stopped: bool, popped: nat)
      modifies this
      ensures popped <= |inbox| && sent == old(sent) + Sends(build, inbox)
      ensures stopped ==> popped > 0 && IsStop(inbox[popped - 1])
      ensures !stopped ==> popped == |inbox|
      ensures forall i :: 0 <= i < (if stopped then popped - 1 else popped) ==> !IsStop(inbox[i])
      ensures closed == (old(closed) || stopped)
    {
      hide PacketOf, Sends, Record, Zeros;
      assert inbox[0..] == inbox;
      var buf := new char[MAX_LEN_OF_SEND_BUFF](_ => '\0');
      stopped, popped := false, 0;
      while popped < |inbox|
        invariant popped <= |inbox| && closed == old(closed) && !stopped
        invariant forall i :: 0 <= i < popped ==> !IsStop(inbox[i])
        invariant old(sent) + Sends(build, inbox) == sent + Sends(build, inbox[popped..])
      {
        SendsFrom(build, inbox, popped);
        var tansObj := inbox[popped];
        popped := popped + 1;
        if tansObj.None? {
          continue;
        }
        if tansObj.value.msgType == MSG_BUTTON {
          stopped, closed := true, true;
          break;
        }
        Fill(buf, tansObj.value);
        Send(buf, tansObj.value);
      }
      if !stopped {
        NothingLeft(build, inbox);
      }
    }

    /** The two conditional sends of the source. */
    method Send(buf: array<char>, m: Msg)
      requires buf.Length == MAX_LEN_OF_SEND_BUFF
      requires buf[..] == Record(m) + Zeros(MAX_LEN_OF_SEND_BUFF - OBJ_SIZE)
      modifies `sent
      ensures sent == old(sent) + [PacketOf(build, m)]
    {
      match build {
        case ServerBuild =>
          assert buf[..OBJ_SIZE] == Record(m);
          sent := sent + [Packet(m.fd, buf[..OBJ_SIZE])];
        case ClientBuild(client) =>
          sent := sent + [Packet(client, buf[..])];
      }
    }
  }
}
