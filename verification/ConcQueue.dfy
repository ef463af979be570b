/** The blocking queue as a step machine: a monitor with one mutex and two conditions.

    Every call is an agent with its own program counter; a loop that calls again is a new
    agent.  `Wait(true)` is the logger's idiom: `waitTillNotEmpty` followed by `pop`. */
module ConcQueue {
  import opened Wrappers
  import opened Counting

  datatype Op<V> =
    | Push(value: V)
    | Pop
    | TryPop
    | Wait(thenPop: bool)
    | PopAfterWait
    | WaitPush(value: V)

  datatype Outcome<V> = Done | Got(value: V) | Null

  datatype Pc<V> =
    | Entering(op: Op<V>)    // wants the mutex
    | Testing(op: Op<V>)     // holds it, about to evaluate the wait predicate
    | Awake(op: Op<V>)       // holds it, past the wait
    | Asleep(op: Op<V>)      // in the wait set of its condition
    | Woken(op: Op<V>)       // signalled or spuriously woken, wants the mutex
    | OwesData(op: Op<V>)    // holds it, has pushed, notifies data_cond next
    | OwesEmpty(op: Op<V>, value: V)  // holds it, popped the last value, notifies empty_cond next
    | Returned(op: Op<V>, outcome: Outcome<V>)

  datatype Queue<V> = Queue(
    owner: Option<nat>,
    data: seq<V>,
    agents: seq<Pc<V>>,
    // histories, in lock order
    pushed: seq<V>,
    popped: seq<V>,
    sentinels: set<nat>)   // which pushes were made by waitPushTillEmpty

  datatype Action<V> =
    | Begin(op: Op<V>)
    | Lock(t: nat)
    | Test(t: nat)
    | Act(t: nat)
    | Notify(t: nat, sleeper: Option<nat>)
    | Spurious(t: nat)

  function Initial<V>(): Queue<V> {
    Queue(None, [], [], [], [], {})
  }

  /** The operations that wait on data_cond; the others that wait do so on empty_cond. */
  predicate WaitsForData<V>(op: Op<V>) { op.Pop? || op.Wait? || op.PopAfterWait? }

  predicate Waits<V>(op: Op<V>) { WaitsForData(op) || op.WaitPush? }

  predicate Condition<V>(q: Queue<V>, op: Op<V>) {
    if WaitsForData(op) then |q.data| > 0 else |q.data| == 0
  }

  predicate DataSleeper<V>(pc: Pc<V>) { pc.Asleep? && WaitsForData(pc.op) }

  predicate EmptySleeper<V>(pc: Pc<V>) { pc.Asleep? && !WaitsForData(pc.op) }

  predicate SleeperFor<V>(pc: Pc<V>, notifier: Pc<V>) {
    if notifier.OwesData? then DataSleeper(pc) else EmptySleeper(pc)
  }

  predicate Enabled<V>(q: Queue<V>, a: Action<V>) {
    match a
    case Begin(op) => !op.PopAfterWait?
    case Lock(t) => t < |q.agents| && (q.agents[t].Entering? || q.agents[t].Woken?) && q.owner == None
    case Test(t) => t < |q.agents| && q.agents[t].Testing?
    case Act(t) => t < |q.agents| && q.agents[t].Awake?
    case Notify(t, sleeper) =>
      t < |q.agents| && (q.agents[t].OwesData? || q.agents[t].OwesEmpty?) &&
      (match sleeper
       case Some(u) => u < |q.agents| && SleeperFor(q.agents[u], q.agents[t])
       case None => forall u :: 0 <= u < |q.agents| ==> !SleeperFor(q.agents[u], q.agents[t]))
    case Spurious(t) => t < |q.agents| && q.agents[t].Asleep?
  }

  predicate Adds<V>(op: Op<V>) { op.Push? || op.WaitPush? }

  predicate Pops<V>(op: Op<V>) { op.Pop? || op.TryPop? || op.PopAfterWait? }

  /** Where a locked block leads, from the point where the wait (if any) has returned. */
  function ActPc<V>(data: seq<V>, op: Op<V>): Pc<V> {
    if Adds(op) then OwesData(op)
    else if op.Wait? then (if op.thenPop then Entering(PopAfterWait) else Returned(op, Done))
    else if |data| == 0 then Returned(op, Null)
    else if |data| == 1 then OwesEmpty(op, data[0])
    else Returned(op, Got(data[0]))
  }

  /** What a locked block does to the queue. */
  function ActData<V>(q: Queue<V>, op: Op<V>): Queue<V> {
    if Adds(op) then
      q.(data := q.data + [op.value], pushed := q.pushed + [op.value],
         sentinels := if op.WaitPush? then q.sentinels + {|q.pushed|} else q.sentinels)
    else if Pops(op) && |q.data| > 0 then
      q.(data := q.data[1..], popped := q.popped + [q.data[0]])
    else q
  }

  function Apply<V>(q: Queue<V>, a: Action<V>): Queue<V>
    requires Enabled(q, a)
  {
    match a
    case Begin(op) => q.(agents := q.agents + [Entering(op)])
    case Lock(t) =>
      var op := q.agents[t].op;
      q.(owner := Some(t), agents := q.agents[t := if Waits(op) then Testing(op) else Awake(op)])
    case Test(t) =>
      var op := q.agents[t].op;
      if Condition(q, op) then q.(agents := q.agents[t := Awake(op)])
      else q.(agents := q.agents[t := Asleep(op)], owner := None)
    case Act(t) =>
      var op := q.agents[t].op;
      var pc := ActPc(q.data, op);
      ActData(q, op).(agents := q.agents[t := pc],
                      owner := if pc.OwesData? || pc.OwesEmpty? then q.owner else None)
    case Notify(t, sleeper) =>
      var pc := q.agents[t];
      var result := Returned(pc.op, if pc.OwesData? then Done else Got(pc.value));
      var agents := if sleeper.Some? then q.agents[sleeper.value := Woken(q.agents[sleeper.value].op)] else q.agents;
      q.(agents := agents[t := result], owner := None)
    case Spurious(t) => q.(agents := q.agents[t := Woken(q.agents[t].op)])
  }

  // ----- runs

  predicate Runnable<V>(q: Queue<V>, run: seq<Action<V>>)
    decreases |run|
  {
    run == [] || (Enabled(q, run[0]) && Runnable(Apply(q, run[0]), run[1..]))
  }

  function Exec<V>(q: Queue<V>, run: seq<Action<V>>): Queue<V>
    requires Runnable(q, run)
    decreases |run|
  {
    if run == [] then q else Exec(Apply(q, run[0]), run[1..])
  }

  ghost predicate Reachable<V(!new)>(q: Queue<V>) {
    exists run :: Runnable(Initial(), run) && Exec(Initial(), run) == q
  }

  lemma OneStep<V>(q: Queue<V>, a: Action<V>, run: seq<Action<V>>)
    requires Enabled(q, a) && Runnable(Apply(q, a), run)
    ensures Runnable(q, [a] + run) && Exec(q, [a] + run) == Exec(Apply(q, a), run)
  {
    hide Enabled, Apply;
    assert ([a] + run)[1..] == run;
  }

  lemma ThreeSteps<V>(q: Queue<V>, a: Action<V>, b: Action<V>, c: Action<V>)
    requires Enabled(q, a) && Enabled(Apply(q, a), b) && Enabled(Apply(Apply(q, a), b), c)
    ensures Runnable(q, [a, b, c]) && Exec(q, [a, b, c]) == Apply(Apply(Apply(q, a), b), c)
  {
    hide Enabled, Apply;
    OneStep(Apply(Apply(q, a), b), c, []);
    OneStep(Apply(q, a), b, [c] + []);
    OneStep(q, a, [b] + ([c] + []));
    assert [a] + ([b] + ([c] + [])) == [a, b, c];
  }

  /** A wakeup without cause is harmless: the call looks again and, if its condition is false, the
      queue is back as it was; otherwise the call goes on. */
  lemma SpuriousIsHarmless<V>(q: Queue<V>, t: nat)
    requires Enabled(q, Spurious(t)) && q.owner == None && Waits(q.agents[t].op)
    ensures var again := [Spurious(t), Lock(t), Test(t)];
      && Runnable(q, again)
      && Exec(q, again)
           == if Condition(q, q.agents[t].op)
              then q.(agents := q.agents[t := Awake(q.agents[t].op)], owner := Some(t)) else q
  {
    var op := q.agents[t].op;
    var woken := Apply(q, Spurious(t));
    assert Enabled(woken, Lock(t)) && woken.agents == q.agents[t := Woken(op)];
    var locked := Apply(woken, Lock(t));
    assert Enabled(locked, Test(t)) && locked.agents == q.agents[t := Woken(op)][t := Testing(op)];
    ThreeSteps(q, Spurious(t), Lock(t), Test(t));
    OverAndOver(q.agents, t, Woken(op), Testing(op), Asleep(op));
    OverAndOver(q.agents, t, Woken(op), Testing(op), Awake(op));
  }

  /** Whenever the mutex is free a new call that need not wait goes through: a push puts its value
      last, a pop takes the first and gives null only to tryAndPop on an empty queue. */
  lemma CallRuns<V>(q: Queue<V>, op: Op<V>)
    requires q.owner == None && (op.Push? || op.TryPop?)
    ensures var t := |q.agents|;
      var run := [Begin(op), Lock(t), Act(t)];
      && Runnable(q, run)
      && var r := Exec(q, run);
      && |r.agents| == t + 1 && r.agents[..t] == q.agents
      && (op.Push? ==> r.data == q.data + [op.value] && r.agents[t] == OwesData(op))
      && (op.TryPop? && q.data == [] ==> r.data == [] && r.agents[t] == Returned(op, Null))
      && (op.TryPop? && q.data != [] ==> r.data == q.data[1..] && Taken(r.agents[t]) == multiset{q.data[0]})
  {
    var t := |q.agents|;
    var begun := Apply(q, Begin(op));
    assert begun.agents == q.agents + [Entering(op)] && Enabled(begun, Lock(t));
    var locked := Apply(begun, Lock(t));
    assert locked.agents[t] == Awake(op) && locked.agents[..t] == q.agents;
    assert Enabled(locked, Act(t));
    ThreeSteps(q, Begin(op), Lock(t), Act(t));
    assert Apply(locked, Act(t)).agents[..t] == q.agents;
  }

  lemma OverAndOver<T>(s: seq<T>, i: nat, a: T, b: T, c: T)
    requires i < |s|
    ensures s[i := a][i := b][i := c] == s[i := c] && (c == s[i] ==> s[i := c] == s)
  {
  }

  // ----- invariants

  predicate Holds<V>(pc: Pc<V>) { pc.Testing? || pc.Awake? || pc.OwesData? || pc.OwesEmpty? }

  /** Mutual exclusion. */
  ghost predicate LockInv<V>(q: Queue<V>) {
    && (q.owner.Some? ==> q.owner.value < |q.agents|)
    && (forall t :: 0 <= t < |q.agents| ==> (Holds(q.agents[t]) <==> q.owner == Some(t)))
  }

  /** What each agent knows about the queue, and which operations may return null. */
  ghost predicate AgentInv<V>(q: Queue<V>, pc: Pc<V>) {
    && (pc.Testing? || pc.Asleep? || pc.Woken? ==> Waits(pc.op))
    && (pc.Awake? && Waits(pc.op) ==> Condition(q, pc.op))
    && (pc.OwesData? ==> |q.data| > 0 && Adds(pc.op))
    && (pc.OwesEmpty? ==> |q.data| == 0 && Pops(pc.op))
    && (pc.Returned? && pc.outcome.Done? ==> !Pops(pc.op))
    && (pc.Returned? && pc.outcome.Null? ==> pc.op.TryPop?)
  }

  ghost predicate AgentsInv<V>(q: Queue<V>) {
    forall t :: 0 <= t < |q.agents| ==> AgentInv(q, q.agents[t])
  }

  function Taken<V>(pc: Pc<V>): multiset<V> {
    match pc
    case OwesEmpty(_, v) => multiset{v}
    case Returned(_, Got(v)) => multiset{v}
    case _ => multiset{}
  }

  /** One sequential FIFO: lock order of pops followed by the contents is lock order of pushes. */
  ghost predicate FifoInv<V>(q: Queue<V>) {
    && q.pushed == q.popped + q.data
    && (forall i :: i in q.sentinels ==> i < |q.pushed|)
  }

  /** Each popped value is in the hands of exactly one call. */
  ghost predicate DeliveryInv<V>(q: Queue<V>) {
    multiset(q.popped) == Gather(Taken<V>, q.agents)
  }

  /** The locked block of the call has changed the queue. */
  predicate Acted<V>(pc: Pc<V>) { pc.OwesData? || pc.OwesEmpty? || pc.Returned? }

  /** What a call has handed to the queue. */
  function Given<V>(pc: Pc<V>): multiset<V> {
    if Adds(pc.op) && Acted(pc) then multiset{pc.op.value} else multiset{}
  }

  /** Each push that has acted is in the queue's history exactly once, and nothing else is. */
  ghost predicate GivenInv<V>(q: Queue<V>) {
    multiset(q.pushed) == Gather(Given<V>, q.agents)
  }

  /** Agents on their way to take a value, and notifications still owed. */
  function DataCredit<V>(pc: Pc<V>): nat {
    match pc
    case OwesData(_) => 1
    case Entering(op) => if op.PopAfterWait? then 1 else 0
    case Testing(op) => if WaitsForData(op) then 1 else 0
    case Awake(op) => if WaitsForData(op) then 1 else 0
    case Woken(op) => if WaitsForData(op) then 1 else 0
    case _ => 0
  }

  ghost predicate DataInv<V>(q: Queue<V>) {
    forall t :: 0 <= t < |q.agents| && DataSleeper(q.agents[t]) ==> |q.data| <= Sum(DataCredit<V>, q.agents)
  }

  /** Agents on their way to push the value that waits for emptiness, or owing that notification. */
  predicate EmptyCredit<V>(pc: Pc<V>) {
    pc.OwesEmpty? || ((pc.Testing? || pc.Awake? || pc.Woken?) && pc.op.WaitPush?)
  }

  ghost predicate EmptyInv<V>(q: Queue<V>) {
    forall t :: 0 <= t < |q.agents| && EmptySleeper(q.agents[t]) && |q.data| == 0 ==>
      exists u :: 0 <= u < |q.agents| && EmptyCredit(q.agents[u])
  }

  /** Every waitTillNotEmpty is followed by a pop. */
  ghost predicate Disciplined<V>(q: Queue<V>) {
    forall t :: 0 <= t < |q.agents| ==> q.agents[t].op != Wait(false)
  }

  ghost predicate Inv<V>(q: Queue<V>) {
    LockInv(q) && AgentsInv(q) && FifoInv(q) && DeliveryInv(q) && GivenInv(q) && EmptyInv(q)
  }

  lemma LockPreserved<V>(q: Queue<V>, a: Action<V>)
    requires LockInv(q) && Enabled(q, a)
    ensures LockInv(Apply(q, a))
  {
  }

  lemma AgentsPreserved<V>(q: Queue<V>, a: Action<V>)
    requires LockInv(q) && AgentsInv(q) && Enabled(q, a)
    ensures AgentsInv(Apply(q, a))
  {
  }

  lemma EmptyPreserved<V>(q: Queue<V>, a: Action<V>)
    requires LockInv(q) && AgentsInv(q) && EmptyInv(q) && Enabled(q, a)
    ensures EmptyInv(Apply(q, a))
  {
    var r := Apply(q, a);
    forall t | 0 <= t < |r.agents| && EmptySleeper(r.agents[t]) && |r.data| == 0
      ensures exists u :: 0 <= u < |r.agents| && EmptyCredit(r.agents[u])
    {
      if |q.data| > 0 {
        assert EmptyCredit(r.agents[a.t]);
      } else if a.Notify? {
        assert EmptyCredit(r.agents[a.sleeper.value]);
      } else {
        assert EmptySleeper(q.agents[t]);
        var u :| 0 <= u < |q.agents| && EmptyCredit(q.agents[u]);
        assert EmptyCredit(r.agents[u]);
      }
    }
  }

  lemma FifoPreserved<V>(q: Queue<V>, a: Action<V>)
    requires FifoInv(q) && Enabled(q, a)
    ensures FifoInv(Apply(q, a))
  {
    if a.Act? && |q.data| > 0 {
      assert q.popped + [q.data[0]] + q.data[1..] == q.popped + q.data;
    }
  }

  lemma SamePart<V>(part: Pc<V> -> multiset<V>, agents: seq<Pc<V>>, t: nat, pc: Pc<V>)
    requires t < |agents| && part(agents[t]) == part(pc)
    ensures Gather(part, agents[t := pc]) == Gather(part, agents)
  {
    hide Gather;
    GatherUpdate(part, agents, t, pc);
  }

  lemma TwoSameParts<V>(part: Pc<V> -> multiset<V>, agents: seq<Pc<V>>, t: nat, pc: Pc<V>, u: nat, woken: Pc<V>)
    requires t < |agents| && u < |agents| && t != u
    requires part(agents[t]) == part(pc) && part(agents[u]) == part(woken)
    ensures Gather(part, agents[t := pc][u := woken]) == Gather(part, agents)
  {
    hide Gather;
    SamePart(part, agents[t := pc], u, woken);
    SamePart(part, agents, t, pc);
  }

  lemma DeliveryPreserved<V>(q: Queue<V>, a: Action<V>)
    requires DeliveryInv(q) && Enabled(q, a)
    ensures DeliveryInv(Apply(q, a))
  {
    match a
    case Begin(op) => GatherAppend(Taken<V>, q.agents, Entering(op));
    case Act(t) => ActDelivers(q, t);
    case Notify(t, sleeper) => NotifyDelivers(q, t, sleeper);
    case _ => SamePart(Taken<V>, q.agents, a.t, Apply(q, a).agents[a.t]);
  }

  lemma ActDelivers<V>(q: Queue<V>, t: nat)
    requires DeliveryInv(q) && Enabled(q, Act(t))
    ensures DeliveryInv(Apply(q, Act(t)))
  {
    var op := q.agents[t].op;
    ActTakes(q, op);
    GatherUpdate(Taken<V>, q.agents, t, ActPc(q.data, op));
    assert Taken(q.agents[t]) == multiset{};
  }

  lemma OneMore<V>(s: seq<V>, v: V)
    ensures multiset(s + [v]) == multiset(s) + multiset{v}
  {
  }

  lemma ActTakes<V>(q: Queue<V>, op: Op<V>)
    ensures multiset(ActData(q, op).popped) == multiset(q.popped) + Taken(ActPc(q.data, op))
  {
    if Pops(op) && |q.data| > 0 {
      assert ActData(q, op).popped == q.popped + [q.data[0]];
      assert Taken(ActPc(q.data, op)) == multiset{q.data[0]};
      hide ActData, ActPc, Taken;
      OneMore(q.popped, q.data[0]);
    } else {
      assert ActData(q, op).popped == q.popped && Taken(ActPc(q.data, op)) == multiset{};
      hide ActData, ActPc, Taken;
    }
  }

  /** Where a notifier ends. */
  function Notified<V>(pc: Pc<V>): Pc<V>
    requires pc.OwesData? || pc.OwesEmpty?
  {
    Returned(pc.op, if pc.OwesData? then Done else Got(pc.value))
  }

  /** The agents after a notification. */
  lemma NotifyAgents<V>(q: Queue<V>, t: nat, sleeper: Option<nat>)
    requires Enabled(q, Notify(t, sleeper))
    ensures var r := Apply(q, Notify(t, sleeper));
      && r.popped == q.popped && r.pushed == q.pushed
      && (sleeper.None? ==> r.agents == q.agents[t := Notified(q.agents[t])])
      && (sleeper.Some? ==>
            && sleeper.value < |q.agents| && sleeper.value != t && q.agents[sleeper.value].Asleep?
            && r.agents == q.agents[t := Notified(q.agents[t])][sleeper.value := Woken(q.agents[sleeper.value].op)])
  {
  }

  lemma NotifyKeepsParts<V>(part: Pc<V> -> multiset<V>, q: Queue<V>, t: nat, sleeper: Option<nat>)
    requires Enabled(q, Notify(t, sleeper))
    requires part(q.agents[t]) == part(Notified(q.agents[t]))
    requires sleeper.Some? ==> part(q.agents[sleeper.value]) == part(Woken(q.agents[sleeper.value].op))
    ensures Gather(part, Apply(q, Notify(t, sleeper)).agents) == Gather(part, q.agents)
  {
    NotifyAgents(q, t, sleeper);
    hide Gather, Apply;
    if sleeper.Some? {
      var u := sleeper.value;
      TwoSameParts(part, q.agents, t, Notified(q.agents[t]), u, Woken(q.agents[u].op));
    } else {
      SamePart(part, q.agents, t, Notified(q.agents[t]));
    }
  }

  lemma NotifyDelivers<V>(q: Queue<V>, t: nat, sleeper: Option<nat>)
    requires DeliveryInv(q) && Enabled(q, Notify(t, sleeper))
    ensures DeliveryInv(Apply(q, Notify(t, sleeper)))
  {
    NotifyAgents(q, t, sleeper);
    assert Taken(q.agents[t]) == Taken(Notified(q.agents[t]));
    hide Gather, Apply;
    NotifyKeepsParts(Taken<V>, q, t, sleeper);
  }

  lemma GivenPreserved<V>(q: Queue<V>, a: Action<V>)
    requires GivenInv(q) && Enabled(q, a)
    ensures GivenInv(Apply(q, a))
  {
    hide GivenInv, Gather;
    match a
    case Begin(op) => BeginGives(q, op);
    case Act(t) => ActGives(q, t);
    case Notify(t, sleeper) => NotifyGives(q, t, sleeper);
    case _ => QuietStepGives(q, a);
  }

  lemma BeginGives<V>(q: Queue<V>, op: Op<V>)
    requires GivenInv(q) && Enabled(q, Begin(op))
    ensures GivenInv(Apply(q, Begin(op)))
  {
    assert Given(Entering(op)) == multiset{};
    hide Gather, Given;
    GatherAppend(Given<V>, q.agents, Entering(op));
  }

  lemma QuietStep<V>(q: Queue<V>, a: Action<V>)
    requires Enabled(q, a) && !a.Begin? && !a.Act? && !a.Notify?
    ensures var (r, pc) := (Apply(q, a), Apply(q, a).agents[a.t]);
      && r.agents == q.agents[a.t := pc] && r.pushed == q.pushed
      && !Acted(pc) && !Acted(q.agents[a.t])
  {
  }

  lemma QuietStepGives<V>(q: Queue<V>, a: Action<V>)
    requires GivenInv(q) && Enabled(q, a) && !a.Begin? && !a.Act? && !a.Notify?
    ensures GivenInv(Apply(q, a))
  {
    QuietStep(q, a);
    hide Gather, Enabled, Apply, Acted;
    SamePart(Given<V>, q.agents, a.t, Apply(q, a).agents[a.t]);
  }

  lemma ActGives<V>(q: Queue<V>, t: nat)
    requires GivenInv(q) && Enabled(q, Act(t))
    ensures GivenInv(Apply(q, Act(t)))
  {
    var op := q.agents[t].op;
    var pc := ActPc(q.data, op);
    assert Given(q.agents[t]) == multiset{};
    ActAdds(q, op);
    assert Apply(q, Act(t)).agents == q.agents[t := pc] && Apply(q, Act(t)).pushed == ActData(q, op).pushed;
    hide Gather, Given, Apply, Enabled, ActData, ActPc;
    GatherUpdate(Given<V>, q.agents, t, pc);
  }

  lemma ActAdds<V>(q: Queue<V>, op: Op<V>)
    ensures multiset(ActData(q, op).pushed) == multiset(q.pushed) + Given(ActPc(q.data, op))
  {
    if Adds(op) {
      assert ActData(q, op).pushed == q.pushed + [op.value];
      assert Given(ActPc(q.data, op)) == multiset{op.value};
      hide ActData, ActPc, Given;
      OneMore(q.pushed, op.value);
    } else {
      assert ActData(q, op).pushed == q.pushed && Given(ActPc(q.data, op)) == multiset{};
      hide ActData, ActPc, Given;
    }
  }

  lemma NotifyGives<V>(q: Queue<V>, t: nat, sleeper: Option<nat>)
    requires GivenInv(q) && Enabled(q, Notify(t, sleeper))
    ensures GivenInv(Apply(q, Notify(t, sleeper)))
  {
    NotifyAgents(q, t, sleeper);
    assert Given(q.agents[t]) == Given(Notified(q.agents[t]));
    hide Gather, Apply;
    NotifyKeepsParts(Given<V>, q, t, sleeper);
  }

  lemma DataPreserved<V>(q: Queue<V>, a: Action<V>)
    requires LockInv(q) && AgentsInv(q) && DataInv(q) && Enabled(q, a)
    requires a.Act? ==> q.agents[a.t].op != Wait(false)
    ensures DataInv(Apply(q, a))
  {
    var r := Apply(q, a);
    match a
    case Begin(op) => SumAppend(DataCredit<V>, q.agents, Entering(op));
    case Lock(t) => SumUpdate(DataCredit<V>, q.agents, t, r.agents[t]);
    case Test(t) => SumUpdate(DataCredit<V>, q.agents, t, r.agents[t]);
    case Act(t) => ActKeepsData(q, t);
    case Notify(t, sleeper) => NotifyKeepsData(q, t, sleeper);
    case Spurious(t) => SumUpdate(DataCredit<V>, q.agents, t, r.agents[t]);
  }

  lemma ActKeepsData<V>(q: Queue<V>, t: nat)
    requires AgentsInv(q) && DataInv(q) && Enabled(q, Act(t)) && q.agents[t].op != Wait(false)
    ensures DataInv(Apply(q, Act(t)))
  {
    var r := Apply(q, Act(t));
    SumUpdate(DataCredit<V>, q.agents, t, r.agents[t]);
    assert AgentInv(q, q.agents[t]);
    forall v | 0 <= v < |r.agents| && DataSleeper(r.agents[v])
      ensures |r.data| <= Sum(DataCredit<V>, r.agents)
    {
      assert DataSleeper(q.agents[v]);
    }
  }

  /** A notification changes the notifier and at most one sleeper. */
  lemma NotifySum<V>(weight: Pc<V> -> nat, q: Queue<V>, t: nat, sleeper: Option<nat>)
    requires Enabled(q, Notify(t, sleeper))
    ensures var r := Apply(q, Notify(t, sleeper));
      Sum(weight, r.agents) + weight(q.agents[t]) + (if sleeper.Some? then weight(q.agents[sleeper.value]) else 0)
        == Sum(weight, q.agents) + weight(r.agents[t]) + if sleeper.Some? then weight(r.agents[sleeper.value]) else 0
  {
    var r := Apply(q, Notify(t, sleeper));
    SumUpdate(weight, q.agents, t, r.agents[t]);
    if sleeper.Some? {
      var u := sleeper.value;
      assert r.agents == q.agents[t := r.agents[t]][u := r.agents[u]];
      SumUpdate(weight, q.agents[t := r.agents[t]], u, r.agents[u]);
    }
  }

  lemma NotifyKeepsData<V>(q: Queue<V>, t: nat, sleeper: Option<nat>)
    requires LockInv(q) && AgentsInv(q) && DataInv(q) && Enabled(q, Notify(t, sleeper))
    ensures DataInv(Apply(q, Notify(t, sleeper)))
  {
    var r := Apply(q, Notify(t, sleeper));
    NotifySum(DataCredit<V>, q, t, sleeper);
    assert AgentInv(q, q.agents[t]);
    forall v | 0 <= v < |r.agents| && DataSleeper(r.agents[v])
      ensures |r.data| <= Sum(DataCredit<V>, r.agents)
    {
      assert DataSleeper(q.agents[v]);
    }
  }

  /** The step that loses a wakeup: a lone waitTillNotEmpty returns, beside a sleeper that only its
      signal covered. */
  ghost predicate LosesWakeup<V>(q: Queue<V>, a: Action<V>)
    requires Enabled(q, a)
  {
    && a.Act? && q.agents[a.t].op == Wait(false)
    && (exists t :: 0 <= t < |q.agents| && DataSleeper(q.agents[t]))
    && |q.data| >= Sum(DataCredit<V>, q.agents)
  }

  /** A step keeps the cover of the sleepers exactly when it is not of that kind. */
  lemma DataCoverKeptExactly<V>(q: Queue<V>, a: Action<V>)
    requires LockInv(q) && AgentsInv(q) && DataInv(q) && Enabled(q, a)
    ensures DataInv(Apply(q, a)) <==> !LosesWakeup(q, a)
  {
    if a.Act? && q.agents[a.t].op == Wait(false) {
      LoneReturn(q, a.t);
    } else {
      DataPreserved(q, a);
    }
  }

  lemma LoneReturn<V>(q: Queue<V>, t: nat)
    requires LockInv(q) && AgentsInv(q) && DataInv(q) && Enabled(q, Act(t)) && q.agents[t].op == Wait(false)
    ensures DataInv(Apply(q, Act(t))) <==> !LosesWakeup(q, Act(t))
  {
    var r := Apply(q, Act(t));
    SumUpdate(DataCredit<V>, q.agents, t, r.agents[t]);
    assert forall u :: 0 <= u < |q.agents| ==> (DataSleeper(r.agents[u]) <==> DataSleeper(q.agents[u]));
  }

  lemma InvPreserved<V>(q: Queue<V>, a: Action<V>)
    requires Inv(q) && Enabled(q, a)
    ensures Inv(Apply(q, a))
  {
    LockPreserved(q, a);
    AgentsPreserved(q, a);
    FifoPreserved(q, a);
    DeliveryPreserved(q, a);
    GivenPreserved(q, a);
    EmptyPreserved(q, a);
  }

  lemma {:induction false} RunKeepsInv<V>(q: Queue<V>, run: seq<Action<V>>)
    requires Inv(q) && Runnable(q, run)
    ensures Inv(Exec(q, run))
    decreases |run|
  {
    if run != [] {
      InvPreserved(q, run[0]);
      RunKeepsInv(Apply(q, run[0]), run[1..]);
    }
  }

  lemma ReachableInv<V(!new)>(q: Queue<V>)
    requires Reachable(q)
    ensures Inv(q)
  {
    var run: seq<Action<V>> :| Runnable(Initial(), run) && Exec(Initial(), run) == q;
    RunKeepsInv(Initial(), run);
  }

  /** A lone waitTillNotEmpty leaves a trace, so a disciplined end means a disciplined run. */
  lemma {:induction false} DisciplineBackwards<V>(q: Queue<V>, run: seq<Action<V>>)
    requires Runnable(q, run) && Disciplined(Exec(q, run))
    ensures Disciplined(q)
    decreases |run|
  {
    if run != [] {
      var r := Apply(q, run[0]);
      DisciplineBackwards(r, run[1..]);
      forall t | 0 <= t < |q.agents| ensures q.agents[t].op != Wait(false) {
        assert r.agents[t].op != Wait(false);
      }
    }
  }

  lemma {:induction false} RunKeepsData<V>(q: Queue<V>, run: seq<Action<V>>)
    requires Inv(q) && DataInv(q) && Runnable(q, run) && Disciplined(Exec(q, run))
    ensures DataInv(Exec(q, run))
    decreases |run|
  {
    if run != [] {
      DisciplineBackwards(q, run);
      InvPreserved(q, run[0]);
      DataPreserved(q, run[0]);
      RunKeepsData(Apply(q, run[0]), run[1..]);
    }
  }

  // ----- safety over whole runs

  /** Any number of threads use one FIFO: every push that has acted is in it once, every value
      popped is in the hands of one call, and the blocking pops never return null. */
  lemma RefinesFifo<V(!new)>(q: Queue<V>)
    requires Reachable(q)
    ensures q.pushed == q.popped + q.data
    ensures multiset(q.pushed) == Gather(Given<V>, q.agents)
    ensures multiset(q.popped) == Gather(Taken<V>, q.agents)
    ensures forall t :: 0 <= t < |q.agents| && q.agents[t].Returned? && Pops(q.agents[t].op) ==>
              q.agents[t].outcome.Got? || (q.agents[t].outcome.Null? && q.agents[t].op.TryPop?)
  {
    ReachableInv(q);
    assert AgentsInv(q);
    forall t | 0 <= t < |q.agents| && q.agents[t].Returned? && Pops(q.agents[t].op)
      ensures q.agents[t].outcome.Got? || (q.agents[t].outcome.Null? && q.agents[t].op.TryPop?)
    {
      assert AgentInv(q, q.agents[t]);
    }
  }

  /** A push that has returned is not lost: its value has been popped or is in the queue. */
  lemma PushIsKept<V(!new)>(q: Queue<V>, t: nat)
    requires Reachable(q) && t < |q.agents| && Adds(q.agents[t].op) && (q.agents[t].OwesData? || q.agents[t].Returned?)
    ensures q.agents[t].op.value in q.popped + q.data
  {
    RefinesFifo(q);
    var v := q.agents[t].op.value;
    assert Given(q.agents[t])[v] == 1;
    hide Gather, Given;
    GatherUpdate(Given<V>, q.agents, t, q.agents[t]);
    assert multiset(q.pushed)[v] >= 1;
  }

  /** A pop that acts takes the front value into its own hands; it takes none exactly when the
      queue is empty, and only tryAndPop gets there. */
  lemma PopTakesFront<V(!new)>(q: Queue<V>, t: nat)
    requires Reachable(q) && Enabled(q, Act(t)) && Pops(q.agents[t].op)
    ensures var r := Apply(q, Act(t));
      if q.data == [] then r.agents[t] == Returned(TryPop, Null) && r.popped == q.popped
      else Taken(r.agents[t]) == multiset{q.data[0]} && r.popped == q.popped + [q.data[0]] && r.data == q.data[1..]
  {
    var op := q.agents[t].op;
    OnlyTryPopFindsNothing(q, t);
    ActStep(q, t);
    PopStep(q, op);
    hide Inv, Reachable, Enabled, Apply, ActPc, ActData, Taken;
  }

  lemma OnlyTryPopFindsNothing<V(!new)>(q: Queue<V>, t: nat)
    requires Reachable(q) && Enabled(q, Act(t)) && Pops(q.agents[t].op)
    ensures q.data == [] ==> q.agents[t].op == TryPop
  {
    ReachableInv(q);
    hide LockInv, FifoInv, DeliveryInv, GivenInv, EmptyInv, Reachable;
    assert AgentInv(q, q.agents[t]);
  }

  lemma ActStep<V>(q: Queue<V>, t: nat)
    requires Enabled(q, Act(t))
    ensures var (r, op) := (Apply(q, Act(t)), q.agents[t].op);
      r.agents[t] == ActPc(q.data, op) && r.popped == ActData(q, op).popped && r.data == ActData(q, op).data
  {
  }

  lemma PopStep<V>(q: Queue<V>, op: Op<V>)
    requires Pops(op)
    ensures q.data == [] ==> ActPc(q.data, op) == Returned(op, Null) && ActData(q, op) == q
    ensures q.data != [] ==>
      && Taken(ActPc(q.data, op)) == multiset{q.data[0]}
      && ActData(q, op).popped == q.popped + [q.data[0]] && ActData(q, op).data == q.data[1..]
  {
  }

  /** The operations that a run begins, in order. */
  function Begun<V>(run: seq<Action<V>>): seq<Op<V>> {
    if run == [] then [] else (if run[0].Begin? then [run[0].op] else []) + Begun(run[1..])
  }

  /** The agent of that operation: the logger's wait goes on as its pop. */
  ghost predicate Runs<V>(pc: Pc<V>, op: Op<V>) {
    pc.op == op || (op == Wait(true) && pc.op == PopAfterWait)
  }

  /** Every call that begins is an agent, in order, and stays the call it is. */
  lemma {:induction false} CallsStay<V>(q: Queue<V>, run: seq<Action<V>>, ops: seq<Op<V>>)
    requires Runnable(q, run) && |ops| == |q.agents| && forall t :: 0 <= t < |ops| ==> Runs(q.agents[t], ops[t])
    ensures var r := Exec(q, run);
      |r.agents| == |ops + Begun(run)| && forall t :: 0 <= t < |r.agents| ==> Runs(r.agents[t], (ops + Begun(run))[t])
    decreases |run|
  {
    if run == [] {
      assert ops + Begun(run) == ops;
    } else {
      var more := if run[0].Begin? then [run[0].op] else [];
      StepKeepsCalls(q, run[0], ops, more);
      hide Runs, Enabled, Apply;
      CallsStay(Apply(q, run[0]), run[1..], ops + more);
      assert ops + more + Begun(run[1..]) == ops + Begun(run);
    }
  }

  lemma StepKeepsCalls<V>(q: Queue<V>, a: Action<V>, ops: seq<Op<V>>, more: seq<Op<V>>)
    requires Enabled(q, a) && |ops| == |q.agents| && forall t :: 0 <= t < |ops| ==> Runs(q.agents[t], ops[t])
    requires more == if a.Begin? then [a.op] else []
    ensures var r := Apply(q, a);
      |r.agents| == |ops + more| && forall t :: 0 <= t < |r.agents| ==> Runs(r.agents[t], (ops + more)[t])
  {
  }

  /** No lost wakeup on data_cond, provided each waitTillNotEmpty is followed by a pop: a
      sleeper means the contents are covered by agents on their way and notifications owed. */
  lemma NoLostDataWakeup<V(!new)>(q: Queue<V>, t: nat)
    requires Reachable(q) && Disciplined(q)
    requires t < |q.agents| && DataSleeper(q.agents[t])
    ensures |q.data| <= Sum(DataCredit<V>, q.agents)
  {
    var run: seq<Action<V>> :| Runnable(Initial(), run) && Exec(Initial(), run) == q;
    RunKeepsData(Initial(), run);
  }

  /** No lost wakeup on empty_cond: a sleeper on an empty queue means another caller of
      waitPushTillEmpty is on its way, or the notification is still owed. */
  lemma NoLostEmptyWakeup<V(!new)>(q: Queue<V>, t: nat) returns (u: nat)
    requires Reachable(q) && t < |q.agents| && EmptySleeper(q.agents[t]) && q.data == []
    ensures u < |q.agents| && EmptyCredit(q.agents[u])
  {
    ReachableInv(q);
    u :| 0 <= u < |q.agents| && EmptyCredit(q.agents[u]);
  }

  /** A push by waitPushTillEmpty finds everything pushed before it already popped. */
  lemma WaitedPushFindsAllPopped<V(!new)>(q: Queue<V>, t: nat)
    requires Reachable(q) && Enabled(q, Act(t)) && q.agents[t].op.WaitPush?
    ensures q.popped == q.pushed && q.data == []
    ensures Apply(q, Act(t)).sentinels == q.sentinels + {|q.popped|}
  {
    ReachableInv(q);
    assert AgentInv(q, q.agents[t]);
    assert q.pushed == q.popped;
  }

  // ----- progress

  /** An action the threads can take without a new call and without a spurious wakeup. */
  predicate Internal<V>(a: Action<V>) { !a.Begin? && !a.Spurious? }

  predicate Blocked<V>(q: Queue<V>, pc: Pc<V>) {
    pc.Asleep? && Waits(pc.op) && !Condition(q, pc.op)
  }

  ghost predicate Stuck<V(!new)>(q: Queue<V>) {
    forall a: Action<V> :: Internal(a) ==> !Enabled(q, a)
  }

  lemma OwnerNotStuck<V(!new)>(q: Queue<V>, t: nat)
    requires Inv(q) && q.owner == Some(t)
    ensures !Stuck(q)
  {
    if exists u :: 0 <= u < |q.agents| && SleeperFor(q.agents[u], q.agents[t]) {
      var u :| 0 <= u < |q.agents| && SleeperFor(q.agents[u], q.agents[t]);
      assert Enabled(q, Test(t)) || Enabled(q, Act(t)) || Enabled(q, Notify(t, Some(u)));
    } else {
      assert Enabled(q, Test(t)) || Enabled(q, Act(t)) || Enabled(q, Notify(t, None));
    }
  }

  lemma StuckAgent<V(!new)>(q: Queue<V>, t: nat)
    requires Inv(q) && Stuck(q) && t < |q.agents|
    ensures q.agents[t].Returned? || q.agents[t].Asleep?
  {
    if q.owner.Some? {
      OwnerNotStuck(q, q.owner.value);
    }
    assert !Enabled(q, Lock(t));
  }

  lemma StuckSleeper<V(!new)>(q: Queue<V>, t: nat)
    requires Reachable(q) && Disciplined(q) && Stuck(q) && t < |q.agents| && q.agents[t].Asleep?
    ensures Blocked(q, q.agents[t])
  {
    ReachableInv(q);
    assert AgentInv(q, q.agents[t]);
    if DataSleeper(q.agents[t]) && |q.data| > 0 {
      NoLostDataWakeup(q, t);
      hide Stuck, Sum;
      var u := SumWitness(DataCredit<V>, q.agents);
      StuckAgent(q, u);
    } else if EmptySleeper(q.agents[t]) && |q.data| == 0 {
      hide Stuck, Sum;
      var u := NoLostEmptyWakeup(q, t);
      StuckAgent(q, u);
    }
  }

  /** The threads are stuck exactly when every call has returned or sleeps on a condition that
      is really false: a pop on an empty queue, or a waiting push on a non-empty one. */
  lemma StuckOnlyWhenBlocked<V(!new)>(q: Queue<V>)
    requires Reachable(q) && Disciplined(q)
    ensures Stuck(q) <==> forall t :: 0 <= t < |q.agents| ==> q.agents[t].Returned? || Blocked(q, q.agents[t])
  {
    ReachableInv(q);
    if Stuck(q) {
      hide Stuck, Inv, Reachable, Disciplined;
      forall t | 0 <= t < |q.agents| ensures q.agents[t].Returned? || Blocked(q, q.agents[t]) {
        StuckAgent(q, t);
        if q.agents[t].Asleep? {
          StuckSleeper(q, t);
        }
      }
    } else {
      NotStuckNotBlocked(q);
    }
  }

  lemma NotStuckNotBlocked<V(!new)>(q: Queue<V>)
    requires Inv(q) && !Stuck(q)
    ensures !(forall t :: 0 <= t < |q.agents| ==> q.agents[t].Returned? || Blocked(q, q.agents[t]))
  {
    var a: Action<V> :| Internal(a) && Enabled(q, a);
    hide Stuck, Inv;
    assert !q.agents[a.t].Returned? && !q.agents[a.t].Asleep?;
  }

  lemma {:induction false} Extend<V>(q: Queue<V>, run: seq<Action<V>>, a: Action<V>)
    requires Runnable(q, run) && Enabled(Exec(q, run), a)
    ensures Runnable(q, run + [a]) && Exec(q, run + [a]) == Apply(Exec(q, run), a)
    decreases |run|
  {
    if run != [] {
      assert (run + [a])[1..] == run[1..] + [a];
      Extend(Apply(q, run[0]), run[1..], a);
    }
  }

  lemma ReachStep<V(!new)>(q: Queue<V>, a: Action<V>) returns (r: Queue<V>)
    requires Reachable(q) && Enabled(q, a)
    ensures r == Apply(q, a) && Reachable(r)
  {
    var run: seq<Action<V>> :| Runnable(Initial(), run) && Exec(Initial(), run) == q;
    Extend(Initial(), run, a);
    r := Apply(q, a);
  }

  /** Two consumers asleep on data_cond: one in pop, one in waitTillNotEmpty alone. */
  lemma TwoSleepers<V(!new)>() returns (q: Queue<V>)
    ensures Reachable(q)
    ensures q == Queue(None, [], [Asleep(Pop), Asleep(Wait(false))], [], [], {})
  {
    q := Initial();
    assert Runnable(q, []) && Exec(q, []) == q;
    q := ReachStep(q, Begin(Pop));
    q := ReachStep(q, Lock(0));
    q := ReachStep(q, Test(0));
    assert q.agents == [Asleep(Pop)];
    q := ReachStep(q, Begin(Wait(false)));
    q := ReachStep(q, Lock(1));
    q := ReachStep(q, Test(1));
    assert q.agents == [Asleep(Pop), Asleep(Wait(false))];
  }

  lemma PushBesidePop<V(!new)>(v: V) returns (q: Queue<V>)
    ensures Reachable(q)
    ensures q == Queue(None, [v], [Asleep(Pop), Woken(Wait(false)), Returned(Push(v), Done)], [v], [], {})
  {
    q := TwoSleepers();
    q := ReachStep(q, Begin(Push(v)));
    q := ReachStep(q, Lock(2));
    q := ReachStep(q, Act(2));
    assert q == Queue(Some(2), [v], [Asleep(Pop), Asleep(Wait(false)), OwesData(Push(v))], [v], [], {});
    q := ReachStep(q, Notify(2, Some(1)));
  }

  /** Without that discipline a wakeup is lost: a lone waitTillNotEmpty can use up the signal
      of a push and leave a pop asleep for ever beside a value. */
  lemma LoneWaitLosesWakeup<V(!new)>(v: V) returns (q: Queue<V>)
    ensures Reachable(q) && Stuck(q)
    ensures q.data == [v] && |q.agents| > 0 && q.agents[0] == Asleep(Pop)
  {
    q := PushBesidePop(v);
    q := ReachStep(q, Lock(1));
    q := ReachStep(q, Test(1));
    assert q.agents == [Asleep(Pop), Awake(Wait(false)), Returned(Push(v), Done)];
    q := ReachStep(q, Act(1));
  }

  // ----- which operations lose wakeups

  ghost predicate Uses<V(!new)>(run: seq<Action<V>>, ops: iset<Op<V>>) {
    forall op :: Begin(op) in run ==> op in ops
  }

  ghost predicate ReachableBy<V(!new)>(q: Queue<V>, ops: iset<Op<V>>) {
    exists run :: Runnable(Initial(), run) && Uses(run, ops) && Exec(Initial(), run) == q
  }

  /** Nothing can move any more, and someone sleeps on data_cond although there is data. */
  ghost predicate SleepsBesideData<V(!new)>(q: Queue<V>) {
    Stuck(q) && |q.data| > 0 && exists t :: 0 <= t < |q.agents| && DataSleeper(q.agents[t])
  }

  lemma {:induction false} AgentsAreUsed<V(!new)>(q: Queue<V>, run: seq<Action<V>>, ops: iset<Op<V>>)
    requires Runnable(q, run) && Uses(run, ops) && Wait(false) !in ops && Disciplined(q)
    ensures Disciplined(Exec(q, run))
    decreases |run|
  {
    if run != [] {
      var r := Apply(q, run[0]);
      forall t | 0 <= t < |r.agents| ensures r.agents[t].op != Wait(false) {
        if t < |q.agents| { assert q.agents[t].op != Wait(false); }
      }
      assert Uses(run[1..], ops);
      AgentsAreUsed(r, run[1..], ops);
    }
  }

  lemma StepBy<V(!new)>(q: Queue<V>, a: Action<V>, ops: iset<Op<V>>) returns (r: Queue<V>)
    requires ReachableBy(q, ops) && Enabled(q, a) && (a.Begin? ==> a.op in ops)
    ensures r == Apply(q, a) && ReachableBy(r, ops)
  {
    var run: seq<Action<V>> :| Runnable(Initial(), run) && Uses(run, ops) && Exec(Initial(), run) == q;
    Extend(Initial(), run, a);
    r := Apply(q, a);
    assert Uses(run + [a], ops);
  }

  lemma TwoLoneWaits<V(!new)>(ops: iset<Op<V>>) returns (q: Queue<V>)
    requires Wait(false) in ops
    ensures ReachableBy(q, ops)
    ensures q == Queue(None, [], [Asleep(Wait(false)), Asleep(Wait(false))], [], [], {})
  {
    q := Initial();
    var none: seq<Action<V>> := [];
    assert Runnable(q, none) && Uses(none, ops) && Exec(q, none) == q;
    q := StepBy(q, Begin(Wait(false)), ops);
    q := StepBy(q, Lock(0), ops);
    q := StepBy(q, Test(0), ops);
    assert q.agents == [Asleep(Wait(false))];
    q := StepBy(q, Begin(Wait(false)), ops);
    q := StepBy(q, Lock(1), ops);
    q := StepBy(q, Test(1), ops);
    assert q.agents == [Asleep(Wait(false)), Asleep(Wait(false))];
  }

  /** One value pushed beside the two: one of them returns, and the other sleeps on. */
  lemma PushBesideTwo<V(!new)>(ops: iset<Op<V>>, push: Op<V>, sleeping: Queue<V>) returns (q: Queue<V>)
    requires push in ops && Adds(push) && ReachableBy(sleeping, ops)
    requires sleeping == Queue(None, [], [Asleep(Wait(false)), Asleep(Wait(false))], [], [], {})
    ensures ReachableBy(q, ops) && q.owner == None && q.data == [push.value]
    ensures q.agents == [Woken(Wait(false)), Asleep(Wait(false)), Returned(push, Done)]
  {
    q := StepBy(sleeping, Begin(push), ops);
    q := StepBy(q, Lock(2), ops);
    if push.WaitPush? {
      q := StepBy(q, Test(2), ops);
    }
    assert q.agents == [Asleep(Wait(false)), Asleep(Wait(false)), Awake(push)] && q.data == [];
    q := StepBy(q, Act(2), ops);
    q := StepBy(q, Notify(2, Some(0)), ops);
  }

  lemma LoneWaitsLose<V(!new)>(ops: iset<Op<V>>, push: Op<V>) returns (q: Queue<V>)
    requires push in ops && Adds(push) && Wait(false) in ops
    ensures ReachableBy(q, ops) && SleepsBesideData(q)
  {
    q := TwoLoneWaits(ops);
    q := PushBesideTwo(ops, push, q);
    q := StepBy(q, Lock(0), ops);
    q := StepBy(q, Test(0), ops);
    q := StepBy(q, Act(0), ops);
    assert q.agents == [Returned(Wait(false), Done), Asleep(Wait(false)), Returned(push, Done)];
    assert DataSleeper(q.agents[1]);
  }

  /** A set of operations with a push among them can leave someone asleep for ever beside data
      exactly when waitTillNotEmpty without a pop after it is among them. */
  lemma OnlyLoneWaitsLoseWakeups<V(!new)>(ops: iset<Op<V>>, push: Op<V>)
    requires push in ops && Adds(push)
    ensures (exists q :: ReachableBy(q, ops) && SleepsBesideData(q)) <==> Wait(false) in ops
  {
    if Wait(false) in ops {
      var q := LoneWaitsLose(ops, push);
    } else {
      forall q | ReachableBy(q, ops) ensures !SleepsBesideData(q) {
        var run: seq<Action<V>> :| Runnable(Initial(), run) && Uses(run, ops) && Exec(Initial(), run) == q;
        AgentsAreUsed(Initial(), run, ops);
        assert Reachable(q);
        StuckOnlyWhenBlocked(q);
      }
    }
  }

  // ----- termination

  /** A logger that returns from its wait goes on to pop. */
  function Extra<V>(op: Op<V>): nat { if op.Wait? && op.thenPop then 3 else 0 }

  function AgentRank<V>(pc: Pc<V>): nat {
    match pc
    case Entering(op) => 6 + Extra(op)
    case Woken(op) => 6 + Extra(op)
    case Testing(op) => 5 + Extra(op)
    case Awake(op) => 4 + Extra(op)
    case Asleep(op) => 4 + Extra(op)
    case OwesData(_) => 3
    case OwesEmpty(_, _) => 3
    case Returned(_, _) => 0
  }

  function Measure<V>(q: Queue<V>): nat { Sum(AgentRank<V>, q.agents) }

  /** What a step may add to the measure, and one more. */
  function Allowance<V>(a: Action<V>): nat {
    if a.Begin? then 10 else if a.Spurious? then 3 else 0
  }

  function Allowances<V>(run: seq<Action<V>>): nat {
    if run == [] then 0 else Allowance(run[0]) + Allowances(run[1..])
  }

  /** Every step of the queue's own lowers the measure; a new call and a spurious wakeup raise it
      by a constant. */
  lemma StepLowersMeasure<V>(q: Queue<V>, a: Action<V>)
    requires Enabled(q, a)
    ensures Measure(Apply(q, a)) + 1 <= Measure(q) + Allowance(a)
  {
    match a
    case Begin(op) => SumAppend(AgentRank<V>, q.agents, Entering(op));
    case Notify(t, sleeper) => NotifySum(AgentRank<V>, q, t, sleeper);
    case _ => OwnRankFalls(q, a);
  }

  lemma OwnRankFalls<V>(q: Queue<V>, a: Action<V>)
    requires Enabled(q, a) && !a.Begin? && !a.Notify?
    ensures Measure(Apply(q, a)) + 1 <= Measure(q) + Allowance(a)
  {
    var pc := Apply(q, a).agents[a.t];
    assert Apply(q, a).agents == q.agents[a.t := pc];
    assert AgentRank(pc) + 1 <= AgentRank(q.agents[a.t]) + Allowance(a);
    hide Enabled, Apply, AgentRank;
    SumUpdate(AgentRank<V>, q.agents, a.t, pc);
  }

  /** Every run is bounded by its calls and its spurious wakeups, whatever the scheduler does. */
  lemma {:induction false} RunIsBounded<V>(q: Queue<V>, run: seq<Action<V>>)
    requires Runnable(q, run)
    ensures |run| + Measure(Exec(q, run)) <= Measure(q) + Allowances(run)
    decreases |run|
  {
    if run != [] {
      StepLowersMeasure(q, run[0]);
      RunIsBounded(Apply(q, run[0]), run[1..]);
    }
  }

  // ----- the object

  /** The queue's fields, changed in place; `owner` stands for the mutex `m`.  Each method is
      one step of one call, and its specification is the step function above. */
  class ConcQueue<V(==)> {
    var owner: Option<nat>
    var data: seq<V>
    var agents: seq<Pc<V>>
    ghost var pushed: seq<V>
    ghost var popped: seq<V>
    ghost var sentinels: set<nat>

    ghost function State(): Queue<V>
      reads this
    {
      Queue(owner, data, agents, pushed, popped, sentinels)
    }

    constructor ()
      ensures State() == Initial()
    {
      owner, data, agents := None, [], [];
      pushed, popped, sentinels := [], [], {};
    }

    method BeginCall(op: Op<V>) returns (t: nat)
      requires Enabled(State(), Begin(op))
      modifies this
      ensures t == old(|agents|) && State() == Apply(old(State()), Begin(op))
    {
      t := |agents|;
      agents := agents + [Entering(op)];
    }

    method LockMutex(t: nat)
      requires Enabled(State(), Lock(t))
      modifies this
      ensures State() == Apply(old(State()), Lock(t))
    {
      var op := agents[t].op;
      owner := Some(t);
      agents := agents[t := if Waits(op) then Testing(op) else Awake(op)];
    }

    /** The predicate of a wait; a false answer releases the mutex and sleeps. */
    method TestWaitPredicate(t: nat)
      requires Enabled(State(), Test(t))
      modifies this
      ensures State() == Apply(old(State()), Test(t))
    {
      var op := agents[t].op;
      var holds := if WaitsForData(op) then data != [] else data == [];
      if holds {
        agents := agents[t := Awake(op)];
      } else {
        agents := agents[t := Asleep(op)];
        owner := None;
      }
    }

    /** The push of `push` and `waitPushTillEmpty`, up to the notification. */
    method PushValue(t: nat)
      requires Enabled(State(), Act(t)) && Adds(agents[t].op)
      modifies this
      ensures State() == Apply(old(State()), Act(t))
    {
      var op := agents[t].op;
      if op.WaitPush? {
        sentinels := sentinels + {|pushed|};
      }
      data := data + [op.value];
      pushed := pushed + [op.value];
      agents := agents[t := OwesData(op)];
    }

    /** `waitTillNotEmpty` returns true and unlocks; the logger's caller goes on to pop. */
    method ReturnFromWait(t: nat)
      requires Enabled(State(), Act(t)) && agents[t].op.Wait?
      modifies this
      ensures State() == Apply(old(State()), Act(t))
    {
      var op := agents[t].op;
      agents := agents[t := if op.thenPop then Entering(PopAfterWait) else Returned(op, Done)];
      owner := None;
    }

    /** The body of `pop` and `tryAndPop` after the wait, up to the notification. */
    method PopValue(t: nat)
      requires Enabled(State(), Act(t)) && Pops(agents[t].op)
      modifies this
      ensures State() == Apply(old(State()), Act(t))
    {
      var op := agents[t].op;
      if data == [] {
        agents := agents[t := Returned(op, Null)];
        owner := None;
        return;
      }
      var value := data[0];
      data := data[1..];
      popped := popped + [value];
      if data == [] {
        agents := agents[t := OwesEmpty(op, value)];
      } else {
        agents := agents[t := Returned(op, Got(value))];
        owner := None;
      }
    }

    /** `data_cond.notify_one()` or `empty_cond.notify_one()`, then unlock. */
    method NotifyAndUnlock(t: nat, sleeper: Option<nat>)
      requires Enabled(State(), Notify(t, sleeper))
      modifies this
      ensures State() == Apply(old(State()), Notify(t, sleeper))
    {
      var pc := agents[t];
      if sleeper.Some? {
        agents := agents[sleeper.value := Woken(agents[sleeper.value].op)];
      }
      agents := agents[t := Returned(pc.op, if pc.OwesData? then Done else Got(pc.value))];
      owner := None;
    }

    method SpuriousWakeup(t: nat)
      requires Enabled(State(), Spurious(t))
      modifies this
      ensures State() == Apply(old(State()), Spurious(t))
    {
      agents := agents[t := Woken(agents[t].op)];
    }
  }
}
