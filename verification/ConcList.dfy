/** The indexed list with a separate size counter.

    Each locked section is one step.  The wait of a pop is a step that is only enabled on a
    non-empty list; the wait of `waitPushTillEmpty` has its wait set made explicit, since not
    every operation that empties the list signals it. */
module ConcList {
  datatype List<V> = List(
    data: seq<V>,
    size: int,
    asleep: seq<V>,  // values of the waitPushTillEmpty calls in the wait set of empty_cond
    woken: seq<V>)   // of those that have left it and will test again

  datatype Action<V> =
    | PushBack(value: V)
    | PushFront(value: V)
    | PopBack(sleeper: nat)   // which sleeper notify_one picks, if there is a choice
    | PopFront(sleeper: nat)
    | Erase(index: int)
    | GetOneRequest(index: int)
    | WaitPush(value: V)
    | TestAgain(caller: nat)
    | Spurious(caller: nat)

  function Empty<V>(): List<V> { List([], 0, [], []) }

  function Without<V>(s: seq<V>, i: nat): seq<V>
    requires i < |s|
  {
    s[..i] + s[i + 1..]
  }

  predicate Enabled<V>(l: List<V>, a: Action<V>) {
    match a
    case PopBack(sleeper) => |l.data| > 0 && (|l.asleep| > 0 ==> sleeper < |l.asleep|)
    case PopFront(sleeper) => |l.data| > 0 && (|l.asleep| > 0 ==> sleeper < |l.asleep|)
    case Erase(index) => index < l.size ==> index < |l.data|
    case GetOneRequest(index) => index < l.size ==> index < |l.data|
    case TestAgain(caller) => caller < |l.woken|
    case Spurious(caller) => caller < |l.asleep|
    case _ => true
  }

  /** The predicate of the wait in `waitPushTillEmpty`, and the push that follows it. */
  function TestAndPush<V>(l: List<V>, value: V): List<V> {
    if |l.data| == 0 then l.(data := [value]) else l.(asleep := l.asleep + [value])
  }

  function Wake<V>(l: List<V>, caller: nat): List<V>
    requires caller < |l.asleep|
  {
    l.(asleep := Without(l.asleep, caller), woken := l.woken + [l.asleep[caller]])
  }

  /** The end of a pop. */
  function Popped<V>(l: List<V>, data: seq<V>, sleeper: nat): List<V>
    requires |l.asleep| > 0 ==> sleeper < |l.asleep|
  {
    var r := l.(data := data, size := l.size - 1);
    if |data| == 0 && |l.asleep| > 0 then Wake(r, sleeper) else r
  }

  predicate InRange<V>(l: List<V>, index: int) { 0 <= index < l.size }

  function Apply<V>(l: List<V>, a: Action<V>): List<V>
    requires Enabled(l, a)
  {
    match a
    case PushBack(value) => l.(data := l.data + [value], size := l.size + 1)
    case PushFront(value) => l.(data := [value] + l.data, size := l.size + 1)
    case PopBack(sleeper) => Popped(l, l.data[..|l.data| - 1], sleeper)
    case PopFront(sleeper) => Popped(l, l.data[1..], sleeper)
    case Erase(index) =>
      if InRange(l, index) then l.(data := Without(l.data, index), size := l.size - 1) else l
    case GetOneRequest(_) => l
    case WaitPush(value) => TestAndPush(l, value)
    case TestAgain(caller) => TestAndPush(l.(woken := Without(l.woken, caller)), l.woken[caller])
    case Spurious(caller) => Wake(l, caller)
  }

  datatype Answer<V> = Nothing | Value(value: V) | Accepted(ok: bool)

  function Reply<V>(l: List<V>, a: Action<V>): Answer<V>
    requires Enabled(l, a)
  {
    match a
    case PopBack(_) => Value(l.data[|l.data| - 1])
    case PopFront(_) => Value(l.data[0])
    case Erase(index) => Accepted(InRange(l, index))
    case GetOneRequest(index) => if InRange(l, index) then Value(l.data[index]) else Accepted(false)
    case _ => Nothing
  }

  // ----- runs

  predicate Runnable<V>(l: List<V>, run: seq<Action<V>>)
    decreases |run|
  {
    run == [] || (Enabled(l, run[0]) && Runnable(Apply(l, run[0]), run[1..]))
  }

  function Exec<V>(l: List<V>, run: seq<Action<V>>): List<V>
    requires Runnable(l, run)
    decreases |run|
  {
    if run == [] then l else Exec(Apply(l, run[0]), run[1..])
  }

  function Replies<V>(l: List<V>, run: seq<Action<V>>): seq<Answer<V>>
    requires Runnable(l, run)
    decreases |run|
  {
    if run == [] then [] else [Reply(l, run[0])] + Replies(Apply(l, run[0]), run[1..])
  }

  // ----- the size counter

  /** The step pushes by way of `waitPushTillEmpty`. */
  predicate PushesUncounted<V>(l: List<V>, a: Action<V>) {
    (a.WaitPush? || a.TestAgain?) && |l.data| == 0
  }

  function Uncounted<V>(l: List<V>, run: seq<Action<V>>): nat
    requires Runnable(l, run)
    decreases |run|
  {
    if run == [] then 0
    else (if PushesUncounted(l, run[0]) then 1 else 0) + Uncounted(Apply(l, run[0]), run[1..])
  }

  lemma {:induction false} SizeDrifts<V>(l: List<V>, run: seq<Action<V>>)
    requires Runnable(l, run)
    ensures Exec(l, run).size == |Exec(l, run).data| + (l.size - |l.data|) - Uncounted(l, run)
    decreases |run|
  {
    if run != [] {
      SizeDrifts(Apply(l, run[0]), run[1..]);
    }
  }

  /** Over every run the counter never exceeds the length, so that the bounds checks are safe;
      it is the length exactly when no push went by way of `waitPushTillEmpty`. */
  lemma SizeCountsCountedPushes<V>(run: seq<Action<V>>)
    requires Runnable(Empty(), run)
    ensures var l := Exec(Empty(), run);
      && l.size == |l.data| - Uncounted(Empty(), run)
      && (l.size == |l.data| <==> Uncounted(Empty(), run) == 0)
      && (forall a: Action<V> :: a.Erase? || a.GetOneRequest? ==> Enabled(l, a))
  {
    SizeDrifts(Empty(), run);
  }

  function Waits<V>(run: seq<Action<V>>): nat {
    if run == [] then 0 else (if run[0].WaitPush? then 1 else 0) + Waits(run[1..])
  }

  /** No caller of `waitPushTillEmpty` is lost: each has pushed, sleeps, or is about to test. */
  lemma {:induction false} WaitersAreKept<V>(l: List<V>, run: seq<Action<V>>)
    requires Runnable(l, run)
    ensures var r := Exec(l, run);
      |r.asleep| + |r.woken| + Uncounted(l, run) == |l.asleep| + |l.woken| + Waits(run)
    decreases |run|
  {
    if run != [] {
      WaitersAreKept(Apply(l, run[0]), run[1..]);
    }
  }

  /** A waiting push that goes through leaves its own value alone in the list. */
  lemma UncountedPushIsAlone<V>(l: List<V>, a: Action<V>)
    requires Enabled(l, a) && PushesUncounted(l, a)
    ensures Apply(l, a).data == [if a.WaitPush? then a.value else l.woken[a.caller]]
    ensures Apply(l, a).size == l.size
  {
  }

  /** A wakeup without cause beside a non-empty list is harmless: the caller sleeps again, now last. */
  lemma SpuriousIsHarmless<V>(l: List<V>, caller: nat)
    requires caller < |l.asleep| && |l.data| > 0
    ensures var again := [Spurious(caller), TestAgain(|l.woken|)];
      && Runnable(l, again)
      && Exec(l, again) == l.(asleep := Without(l.asleep, caller) + [l.asleep[caller]])
  {
    var v := l.asleep[caller];
    var awake := Wake(l, caller);
    assert Without(awake.woken, |l.woken|) == l.woken && awake.woken[|l.woken|] == v;
    RunsFirst(awake, TestAgain(|l.woken|), []);
    RunsFirst(l, Spurious(caller), [TestAgain(|l.woken|)] + []);
    var again: seq<Action<V>> := [Spurious(caller), TestAgain(|l.woken|)];
    assert again == [Spurious(caller)] + ([TestAgain(|l.woken|)] + []);
  }

  // ----- the abstract sequence

  /** The same operations on a plain sequence, without a counter. */
  function Plain<V>(s: seq<V>, a: Action<V>): seq<V> {
    match a
    case PushBack(value) => s + [value]
    case PushFront(value) => [value] + s
    case PopBack(_) => if s == [] then s else s[..|s| - 1]
    case PopFront(_) => if s == [] then s else s[1..]
    case Erase(index) => if 0 <= index < |s| then Without(s, index) else s
    case _ => s
  }

  function PlainReply<V>(s: seq<V>, a: Action<V>): Answer<V> {
    match a
    case PopBack(_) => if s == [] then Nothing else Value(s[|s| - 1])
    case PopFront(_) => if s == [] then Nothing else Value(s[0])
    case Erase(index) => Accepted(0 <= index < |s|)
    case GetOneRequest(index) => if 0 <= index < |s| then Value(s[index]) else Accepted(false)
    case _ => Nothing
  }

  function PlainExec<V>(s: seq<V>, run: seq<Action<V>>): seq<V>
    decreases |run|
  {
    if run == [] then s else PlainExec(Plain(s, run[0]), run[1..])
  }

  function PlainReplies<V>(s: seq<V>, run: seq<Action<V>>): seq<Answer<V>>
    decreases |run|
  {
    if run == [] then [] else [PlainReply(s, run[0])] + PlainReplies(Plain(s, run[0]), run[1..])
  }

  /** Without such a push, the list with its counter answers every operation of every run as a
      plain sequence does: an accepted index selects the same element. */
  lemma {:induction false} RefinesSequence<V>(l: List<V>, run: seq<Action<V>>)
    requires l.size == |l.data| && Runnable(l, run) && Uncounted(l, run) == 0
    ensures Exec(l, run).data == PlainExec(l.data, run)
    ensures Replies(l, run) == PlainReplies(l.data, run)
    decreases |run|
  {
    if run != [] {
      RefinesSequence(Apply(l, run[0]), run[1..]);
    }
  }

  /** After such a push it does not: the last elements, one for each, are out of reach. */
  lemma HiddenElements<V>(run: seq<Action<V>>, index: int)
    requires Runnable(Empty(), run)
    ensures Exec(Empty(), run).size <= |Exec(Empty(), run).data|
    ensures var l := Exec(Empty(), run);
      Reply(l, GetOneRequest(index)) == PlainReply(l.data, GetOneRequest(index)) <==>
        !(0 <= index && |l.data| - Uncounted(Empty(), run) <= index < |l.data|)
  {
    SizeDrifts(Empty(), run);
  }

  // ----- waiting for emptiness

  /** A caller that waits for emptiness on an empty list is not alone asleep. */
  predicate NoLostWakeup<V>(l: List<V>) {
    |l.data| == 0 && |l.asleep| > 0 ==> |l.woken| > 0
  }

  /** The step that loses it: an erase of the last element while someone sleeps. */
  predicate ErasesLast<V>(l: List<V>, a: Action<V>) {
    a.Erase? && InRange(l, a.index) && |l.data| == 1 && |l.asleep| > 0 && |l.woken| == 0
  }

  lemma WakeupKept<V>(l: List<V>, a: Action<V>)
    requires NoLostWakeup(l) && Enabled(l, a)
    ensures NoLostWakeup(Apply(l, a)) <==> !ErasesLast(l, a)
  {
  }

  ghost predicate NeverErasesLast<V>(l: List<V>, run: seq<Action<V>>)
    requires Runnable(l, run)
    decreases |run|
  {
    run == [] || (!ErasesLast(l, run[0]) && NeverErasesLast(Apply(l, run[0]), run[1..]))
  }

  /** Over every run without that step no wakeup is lost. */
  lemma {:induction false} WakeupsKept<V>(l: List<V>, run: seq<Action<V>>)
    requires NoLostWakeup(l) && Runnable(l, run) && NeverErasesLast(l, run)
    ensures NoLostWakeup(Exec(l, run))
    decreases |run|
  {
    if run != [] {
      WakeupKept(l, run[0]);
      WakeupsKept(Apply(l, run[0]), run[1..]);
    }
  }

  /** `erase` does not signal: a caller can be left asleep beside an empty list. */
  lemma EraseLosesWakeup<V>(v: V, w: V) returns (run: seq<Action<V>>)
    ensures Runnable(Empty(), run)
    ensures Exec(Empty(), run) == List([], 0, [w], [])
  {
    run := [PushBack(v)] + ([WaitPush(w)] + ([Erase(0)] + []));
    var l1: List<V> := List([v], 1, [], []);
    var l2: List<V> := List([v], 1, [w], []);
    var l3: List<V> := List([], 0, [w], []);
    RunsFirst(l2, Erase(0), []);
    RunsFirst(l1, WaitPush(w), [Erase(0)] + []);
    RunsFirst(Empty(), PushBack(v), [WaitPush(w)] + ([Erase(0)] + []));
    assert Apply(l2, Erase(0)) == l3;
    assert Apply(l1, WaitPush(w)) == l2;
    assert Apply(Empty(), PushBack(v)) == l1;
  }

  lemma RunsFirst<V>(l: List<V>, a: Action<V>, run: seq<Action<V>>)
    requires Enabled(l, a)
    ensures Runnable(l, [a] + run) <==> Runnable(Apply(l, a), run)
    ensures Runnable(Apply(l, a), run) ==> Exec(l, [a] + run) == Exec(Apply(l, a), run)
  {
    assert ([a] + run)[1..] == run;
  }

  // ----- the object

  class ConcList<V(==)> {
    var data: seq<V>
    var size: int
    var asleep: seq<V>
    var woken: seq<V>

    ghost function State(): List<V>
      reads this
    {
      List(data, size, asleep, woken)
    }

    constructor ()
      ensures State() == Empty()
    {
      data, size, asleep, woken := [], 0, [], [];
    }

    /** The copy constructor leaves `size` as the memory was, so that the copy counts right only
        by accident. */
    constructor Copy(other: ConcList<V>, memory: int)
      ensures State() == List(other.data, memory, [], [])
      ensures size == |data| <==> memory == |other.data|
    {
      data, size, asleep, woken := other.data, memory, [], [];
    }

    method PushToBack(value: V)
      modifies this
      ensures State() == Apply(old(State()), PushBack(value))
    {
      data := data + [value];
      size := size + 1;
    }

    method PushToFront(value: V)
      modifies this
      ensures State() == Apply(old(State()), PushFront(value))
    {
      data := [value] + data;
      size := size + 1;
    }

    /** `empty_cond.notify_one()` */
    method NotifyEmpty(sleeper: nat)
      requires |asleep| > 0 ==> sleeper < |asleep|
      modifies this`asleep, this`woken
      ensures State() == if |old(asleep)| > 0 then Wake(old(State()), sleeper) else old(State())
    {
      if asleep != [] {
        woken := woken + [asleep[sleeper]];
        asleep := asleep[..sleeper] + asleep[sleeper + 1..];
      }
    }

    method PopFromBack(sleeper: nat) returns (value: V)
      requires Enabled(State(), PopBack(sleeper))
      modifies this
      ensures State() == Apply(old(State()), PopBack(sleeper))
      ensures Value(value) == Reply(old(State()), PopBack(sleeper))
    {
      value := data[|data| - 1];
      data := data[..|data| - 1];
      size := size - 1;
      if data == [] {
        NotifyEmpty(sleeper);
      }
    }

    method PopFromFront(sleeper: nat) returns (value: V)
      requires Enabled(State(), PopFront(sleeper))
      modifies this
      ensures State() == Apply(old(State()), PopFront(sleeper))
      ensures Value(value) == Reply(old(State()), PopFront(sleeper))
    {
      value := data[0];
      data := data[1..];
      size := size - 1;
      if data == [] {
        NotifyEmpty(sleeper);
      }
    }

    method EraseAt(index: int) returns (ok: bool)
      requires Enabled(State(), Erase(index))
      modifies this
      ensures State() == Apply(old(State()), Erase(index))
      ensures Accepted(ok) == Reply(old(State()), Erase(index))
    {
      if index < 0 || index >= size {
        return false;
      }
      data := data[..index] + data[index + 1..];
      size := size - 1;
      return true;
    }

    method WaitPushTillEmpty(value: V)
      modifies this
      ensures State() == Apply(old(State()), WaitPush(value))
    {
      if data == [] {
        data := data + [value];
      } else {
        asleep := asleep + [value];
      }
    }

    /** The loop that copies the list out. */
    method GetAllData(target: seq<V>) returns (all: seq<V>)
      ensures all == target + data
    {
      all := target;
      for it := 0 to |data|
        invariant all == target + data[..it]
      {
        all := all + [data[it]];
      }
    }

    /** `getOneRequest`: the element, or false. */
    method GetRequest(index: int) returns (answer: Answer<V>)
      requires Enabled(State(), GetOneRequest(index))
      ensures answer == Reply(State(), GetOneRequest(index))
    {
      if index >= 0 && index < size {
        return Value(data[index]);
      }
      return Accepted(false);
    }
  }
}
